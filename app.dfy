/**
 * The `App` component of src/App.tsx as an object: one field per piece of
 * React state, one method per handler. A method runs a handler to the end,
 * taking the settled outcome of each request it awaits as a parameter and
 * returning the requests it sent; `View()` is the state as an
 * `AppLogic.State`, and every method is specified by the `AppLogic`
 * transition of the same name.
 */
module App {
  import opened Wrappers
  import opened AppLogic

  class Component {
    // the entry form
    var date: string
    var projectId: int
    var minutes: int
    var note: string
    // data loaded from the server
    var projects: seq<Project>
    var entries: seq<TimeEntry>
    // the save in progress and its error
    var saving: bool
    var error: Option<string>
    // the single edit slot and its drafts
    var editingId: Option<int>
    var editMinutes: int
    var editNote: string

    function View(): State
      reads this
    {
      State(date, projectId, minutes, note, projects, entries, saving, error,
            editingId, editMinutes, editNote)
    }

    /** The initial state for the day `today`, before the mount effects run. */
    constructor (today: string)
      ensures date == today && projectId == DefaultProjectId
      ensures minutes == DefaultMinutes && note == ""
      ensures projects == [] && entries == []
      ensures !saving && error == None
      ensures editingId == None && editMinutes == DefaultMinutes && editNote == ""
    {
      date := today;
      projectId := DefaultProjectId;
      minutes := DefaultMinutes;
      note := "";
      projects := [];
      entries := [];
      saving := false;
      error := None;
      editingId := None;
      editMinutes := DefaultMinutes;
      editNote := "";
    }

    method LoadDay(d: string, reply: Reply<seq<TimeEntry>>) returns (sent: seq<Request>)
      modifies this
      ensures Step(View(), sent) == AppLogic.LoadDay(old(View()), d, reply)
    {
      sent := [ListEntries(UserId, d)];
      if reply.Ok? {
        entries := reply.value;
      }
    }

    method Mount(projectsReply: Reply<seq<Project>>, entriesReply: Reply<seq<TimeEntry>>)
      returns (sent: seq<Request>)
      modifies this
      ensures Step(View(), sent) == AppLogic.Mount(old(View()), projectsReply, entriesReply)
    {
      sent := [ListProjects];
      if projectsReply.Ok? {
        projects := projectsReply.value;
      }
      var loaded := LoadDay(date, entriesReply);
      sent := sent + loaded;
    }

    method SelectDay(d: string, reply: Reply<seq<TimeEntry>>) returns (sent: seq<Request>)
      modifies this
      ensures Step(View(), sent) == AppLogic.SelectDay(old(View()), d, reply)
    {
      sent := [];
      if d != date {
        date := d;
        sent := LoadDay(date, reply);
      }
    }

    method Input(i: FormInput)
      modifies this
      ensures View() == AppLogic.Input(old(View()), i)
    {
      match i
      case ProjectChosen(p) => projectId := p;
      case MinutesTyped(m) => minutes := m;
      case NoteTyped(n) => note := n;
      case EditMinutesTyped(m) => editMinutes := m;
      case EditNoteTyped(n) => editNote := n;
    }

    method OnSave(post: Reply<TimeEntry>, reload: Reply<seq<TimeEntry>>) returns (sent: seq<Request>)
      modifies this
      ensures Step(View(), sent) == AppLogic.OnSave(old(View()), post, reload)
    {
      saving := true;
      error := None;
      sent := [CreateEntry(NewEntry(UserId, projectId, date, minutes, note))];
      if post.Ok? {
        note := "";
        minutes := DefaultMinutes;
        var loaded := LoadDay(date, reload);
        sent := sent + loaded;
        if reload.Failed? {
          error := Some(SaveErrorMessage(reload.message));
        }
      } else {
        error := Some(SaveErrorMessage(post.message));
      }
      saving := false;
    }

    method OnDelete(id: int, confirmed: bool, del: Reply<()>, reload: Reply<seq<TimeEntry>>)
      returns (sent: seq<Request>)
      modifies this
      ensures Step(View(), sent) == AppLogic.OnDelete(old(View()), id, confirmed, del, reload)
    {
      if !confirmed {
        return [];
      }
      sent := [DeleteEntry(id)];
      if del.Failed? {
        return;
      }
      var loaded := LoadDay(date, reload);
      sent := sent + loaded;
    }

    method StartEdit(entry: TimeEntry)
      modifies this
      ensures View() == AppLogic.StartEdit(old(View()), entry)
    {
      editingId := Some(entry.id);
      editMinutes := entry.durationMinutes;
      editNote := entry.note.GetOr("");
    }

    method SaveEdit(id: int, patch: Reply<()>, reload: Reply<seq<TimeEntry>>) returns (sent: seq<Request>)
      modifies this
      ensures Step(View(), sent) == AppLogic.SaveEdit(old(View()), id, patch, reload)
    {
      sent := [UpdateEntry(id, editMinutes, editNote)];
      if patch.Ok? {
        editingId := None;
        var loaded := LoadDay(date, reload);
        sent := sent + loaded;
      }
    }

    method CancelEdit()
      modifies this
      ensures View() == AppLogic.CancelEdit(old(View()))
    {
      editingId := None;
    }
  }
}
