/**
 * The state and the handlers of the `App` component (src/App.tsx) as pure
 * transitions. A snapshot of the component's state is a `State`; each
 * handler maps the state it starts from, and the settled outcomes of the
 * requests it awaits, to the state it leaves and the requests it sends.
 * The class `App.Component` holds the same state in fields and is specified
 * by these functions.
 */
module AppLogic {
  import opened Wrappers
  import Dates
  import Decimal

  /** The current user: every request is sent for user 1. */
  const UserId: int := 1
  /** What the minutes field starts from and is reset to after a save. */
  const DefaultMinutes: int := 60
  /** The project preselected in the form. */
  const DefaultProjectId: int := 1
  /** Shown when a failed save carries no message. */
  const SaveFallback: string := "Error while saving"

  datatype Project = Project(id: int, name: string, client: Option<string>, isActive: bool)

  /** A time entry; `date` is `YYYY-MM-DD`. */
  datatype TimeEntry = TimeEntry(
    id: int, userId: int, projectId: int, date: string,
    durationMinutes: int, note: Option<string>)

  /** The body of the create request. */
  datatype NewEntry = NewEntry(
    userId: int, projectId: int, date: string, durationMinutes: int, note: string)

  /** A request sent to the time-tracking API. */
  datatype Request =
    | ListProjects                                           // GET /projects
    | ListEntries(userId: int, date: string)                 // GET /time-entries?userId=..&date=..
    | CreateEntry(entry: NewEntry)                           // POST /time-entries
    | UpdateEntry(id: int, durationMinutes: int, note: string) // PATCH /time-entries/{id}
    | DeleteEntry(id: int)                                   // DELETE /time-entries/{id}

  /**
   * How an awaited request settled: `Ok` with the response data, or `Failed`
   * when the response was not ok or the request threw; `message` is the
   * thrown error's message, when it has one.
   */
  datatype Reply<T> = Ok(value: T) | Failed(message: Option<string>)

  /** The component's state. `editingId == None` is "no entry is being edited". */
  datatype State = State(
    date: string, projectId: int, minutes: int, note: string,
    projects: seq<Project>, entries: seq<TimeEntry>,
    saving: bool, error: Option<string>,
    editingId: Option<int>, editMinutes: int, editNote: string)

  /** The state a handler leaves and the requests it sent, in order. */
  datatype Step = Step(state: State, sent: seq<Request>)

  /** What the user types or selects in the form and in the row being edited. */
  datatype FormInput =
    | ProjectChosen(projectId: int)
    | MinutesTyped(minutes: int)
    | NoteTyped(note: string)
    | EditMinutesTyped(editMinutes: int)
    | EditNoteTyped(editNote: string)

  // ---------------------------------------------------------------------------
  // transitions

  /** `loadDay(d)`: fetch the day's entries and replace `entries`; a failure rejects and changes nothing. */
  function LoadDay(s: State, d: string, reply: Reply<seq<TimeEntry>>): Step
  {
    Step(if reply.Ok? then s.(entries := reply.value) else s, [ListEntries(UserId, d)])
  }

  /** The two mount effects: load the projects once, and load the entries for the initial day. */
  function Mount(s: State, projectsReply: Reply<seq<Project>>, entriesReply: Reply<seq<TimeEntry>>): Step
  {
    var withProjects := if projectsReply.Ok? then s.(projects := projectsReply.value) else s;
    var load := LoadDay(withProjects, s.date, entriesReply);
    Step(load.state, [ListProjects] + load.sent)
  }

  /** Choosing a day: `setDate(d)`, then the effect on `date` reloads, unless the date did not change. */
  function SelectDay(s: State, d: string, reply: Reply<seq<TimeEntry>>): Step
  {
    if d == s.date then Step(s, []) else LoadDay(s.(date := d), d, reply)
  }

  /** The `onChange` handlers of the form and of the row being edited. */
  function Input(s: State, i: FormInput): State
  {
    match i
    case ProjectChosen(p) => s.(projectId := p)
    case MinutesTyped(m) => s.(minutes := m)
    case NoteTyped(n) => s.(note := n)
    case EditMinutesTyped(m) => s.(editMinutes := m)
    case EditNoteTyped(n) => s.(editNote := n)
  }

  /** `err.message ?? "Error while saving"`. */
  function SaveErrorMessage(message: Option<string>): string
  {
    message.GetOr(SaveFallback)
  }

  /** The create request `onSave` sends from the form fields. */
  function CreateFrom(s: State): Request
  {
    CreateEntry(NewEntry(UserId, s.projectId, s.date, s.minutes, s.note))
  }

  /**
   * `onSave`: mark saving and clear the error; POST the form as a new entry;
   * on success reset note and minutes and reload the day; an exception from
   * either request sets the error; saving is cleared in every case.
   */
  function OnSave(s: State, post: Reply<TimeEntry>, reload: Reply<seq<TimeEntry>>): Step
  {
    var started := s.(saving := true, error := None);
    if post.Failed? then
      Step(started.(error := Some(SaveErrorMessage(post.message)), saving := false), [CreateFrom(s)])
    else
      var cleared := started.(note := "", minutes := DefaultMinutes);
      var load := LoadDay(cleared, s.date, reload);
      var settled :=
        if reload.Failed? then load.state.(error := Some(SaveErrorMessage(reload.message)))
        else load.state;
      Step(settled.(saving := false), [CreateFrom(s)] + load.sent)
  }

  /** `onDelete(id)`: nothing unless confirmed; DELETE, and on success reload the day. */
  function OnDelete(s: State, id: int, confirmed: bool, del: Reply<()>, reload: Reply<seq<TimeEntry>>): Step
  {
    if !confirmed then Step(s, [])
    else if del.Failed? then Step(s, [DeleteEntry(id)])
    else
      var load := LoadDay(s, s.date, reload);
      Step(load.state, [DeleteEntry(id)] + load.sent)
  }

  /** `startEdit(entry)`: the edit slot takes the entry, the drafts are seeded from it. */
  function StartEdit(s: State, entry: TimeEntry): State
  {
    s.(editingId := Some(entry.id), editMinutes := entry.durationMinutes, editNote := entry.note.GetOr(""))
  }

  /** The update request `saveEdit(id)` sends: the two drafts and nothing else. */
  function UpdateFrom(s: State, id: int): Request
  {
    UpdateEntry(id, s.editMinutes, s.editNote)
  }

  /** `saveEdit(id)`: PATCH the drafts; on success leave edit mode and reload the day. */
  function SaveEdit(s: State, id: int, patch: Reply<()>, reload: Reply<seq<TimeEntry>>): Step
  {
    if patch.Failed? then Step(s, [UpdateFrom(s, id)])
    else
      var load := LoadDay(s.(editingId := None), s.date, reload);
      Step(load.state, [UpdateFrom(s, id)] + load.sent)
  }

  /** `cancelEdit()`: leave edit mode. */
  function CancelEdit(s: State): State
  {
    s.(editingId := None)
  }

  // ---------------------------------------------------------------------------
  // pure helpers of the component

  /** `projects.find((p) => p.id === id)`. */
  function FindProject(ps: seq<Project>, id: int): (r: Option<Project>)
    ensures r.None? <==> forall i :: 0 <= i < |ps| ==> ps[i].id != id
    ensures r.Some? ==>
      exists i :: 0 <= i < |ps| && ps[i] == r.value && ps[i].id == id &&
        forall j :: 0 <= j < i ==> ps[j].id != id
  {
    if |ps| == 0 then None
    else if ps[0].id == id then Some(ps[0])
    else
      var r := FindProject(ps[1..], id);
      assert r.Some? ==> (exists i :: 1 <= i < |ps| && ps[i] == r.value && ps[i].id == id &&
                                      forall j :: 0 <= j < i ==> ps[j].id != id) by {
        if r.Some? {
          var k :| 0 <= k < |ps[1..]| && ps[1..][k] == r.value && ps[1..][k].id == id &&
            forall j :: 0 <= j < k ==> ps[1..][j].id != id;
          assert ps[k + 1] == r.value;
        }
      }
      r
  }

  /** The label of a project id: the first matching project's name, else `Project #<id>`. */
  function ProjectName(ps: seq<Project>, id: int): (name: string)
    ensures forall i :: 0 <= i < |ps| && ps[i].id == id && (forall j :: 0 <= j < i ==> ps[j].id != id) ==>
      name == ps[i].name
    ensures (forall i :: 0 <= i < |ps| ==> ps[i].id != id) ==> name == "Project #" + Decimal.IntToString(id)
  {
    match FindProject(ps, id)
    case Some(p) => p.name
    case None => "Project #" + Decimal.IntToString(id)
  }

  /** The inline copy of `formatDateDisplay` at App.tsx:16-19. */
  function FormatDateDisplay(iso: string): string
  {
    var parts := Dates.Split(iso);
    var y, m, d := Dates.Part(parts, 0), Dates.Part(parts, 1), Dates.Part(parts, 2);
    d + "-" + m + "-" + y
  }

  // ---------------------------------------------------------------------------
  // properties

  /** The inline helper and the one in `utils/dates.ts` agree on every input. */
  lemma InlineFormatAgrees(s: string)
    ensures FormatDateDisplay(s) == Dates.FormatDateDisplay(s)
  {
  }

  /** Two ids get the same fallback label only if they are equal. */
  lemma FallbackLabelsDistinct(ps: seq<Project>, a: int, b: int)
    requires forall i :: 0 <= i < |ps| ==> ps[i].id != a && ps[i].id != b
    requires ProjectName(ps, a) == ProjectName(ps, b)
    ensures a == b
  {
    var prefix := "Project #";
    assert ProjectName(ps, a)[|prefix|..] == Decimal.IntToString(a);
    assert ProjectName(ps, b)[|prefix|..] == Decimal.IntToString(b);
    Decimal.IntToStringInjective(a, b);
  }

  /** `loadDay` replaces the entries with the server's list, or leaves everything as it was. */
  lemma LoadDayReplacesEntries(s: State, d: string, reply: Reply<seq<TimeEntry>>)
    ensures LoadDay(s, d, reply).sent == [ListEntries(UserId, d)]
    ensures reply.Ok? ==> LoadDay(s, d, reply).state == s.(entries := reply.value)
    ensures reply.Failed? ==> LoadDay(s, d, reply).state == s
  {
  }

  /** Mounting asks for the projects and for the initial day's entries, and stores what arrives. */
  lemma MountLoadsProjectsAndDay(s: State, pr: Reply<seq<Project>>, er: Reply<seq<TimeEntry>>)
    ensures Mount(s, pr, er).sent == [ListProjects, ListEntries(UserId, s.date)]
    ensures Mount(s, pr, er).state.projects == if pr.Ok? then pr.value else s.projects
    ensures Mount(s, pr, er).state.entries == if er.Ok? then er.value else s.entries
    ensures Mount(s, pr, er).state.(projects := s.projects, entries := s.entries) == s
  {
  }

  /** A new day is loaded; reselecting the current day does nothing. */
  lemma SelectDayLoadsNewDay(s: State, d: string, reply: Reply<seq<TimeEntry>>)
    ensures d == s.date ==> SelectDay(s, d, reply) == Step(s, [])
    ensures d != s.date ==> SelectDay(s, d, reply).sent == [ListEntries(UserId, d)]
    ensures d != s.date ==> SelectDay(s, d, reply).state.date == d
    ensures d != s.date ==>
      SelectDay(s, d, reply).state.entries == if reply.Ok? then reply.value else s.entries
    ensures SelectDay(s, d, reply).state.(date := s.date, entries := s.entries) == s
  {
  }

  /** Typing changes only the field typed into; the entries and the edit slot stay. */
  lemma InputChangesOneField(s: State, i: FormInput)
    ensures Input(s, i).entries == s.entries && Input(s, i).editingId == s.editingId
    ensures Input(s, i).date == s.date && Input(s, i).saving == s.saving && Input(s, i).error == s.error
    ensures i.ProjectChosen? ==> Input(s, i) == s.(projectId := i.projectId)
    ensures i.MinutesTyped? ==> Input(s, i) == s.(minutes := i.minutes)
    ensures i.NoteTyped? ==> Input(s, i) == s.(note := i.note)
    ensures i.EditMinutesTyped? ==> Input(s, i) == s.(editMinutes := i.editMinutes)
    ensures i.EditNoteTyped? ==> Input(s, i) == s.(editNote := i.editNote)
  {
  }

  /** A successful save resets note and minutes, keeps date and project, reloads the day and clears the error. */
  lemma OnSaveSucceeded(s: State, post: Reply<TimeEntry>, reload: Reply<seq<TimeEntry>>)
    requires post.Ok? && reload.Ok?
    ensures OnSave(s, post, reload).sent ==
      [CreateEntry(NewEntry(UserId, s.projectId, s.date, s.minutes, s.note)), ListEntries(UserId, s.date)]
    ensures OnSave(s, post, reload).state ==
      s.(note := "", minutes := DefaultMinutes, entries := reload.value, saving := false, error := None)
  {
  }

  /** A failed POST reports its message (or the fallback), leaves the form and the entries, and sends nothing more. */
  lemma OnSaveFailed(s: State, post: Reply<TimeEntry>, reload: Reply<seq<TimeEntry>>)
    requires post.Failed?
    ensures OnSave(s, post, reload).sent == [CreateFrom(s)]
    ensures OnSave(s, post, reload).state == s.(saving := false, error := Some(SaveErrorMessage(post.message)))
    ensures post.message.None? ==> OnSave(s, post, reload).state.error == Some("Error while saving")
  {
  }

  /**
   * When the POST succeeds but the reload throws, the form has already been
   * reset and the reload's message is reported; the entries are not touched.
   */
  lemma OnSaveReloadFailed(s: State, post: Reply<TimeEntry>, reload: Reply<seq<TimeEntry>>)
    requires post.Ok? && reload.Failed?
    ensures OnSave(s, post, reload).sent == [CreateFrom(s), ListEntries(UserId, s.date)]
    ensures OnSave(s, post, reload).state ==
      s.(note := "", minutes := DefaultMinutes, saving := false, error := Some(SaveErrorMessage(reload.message)))
  {
  }

  /** Whatever the outcome, `onSave` ends with `saving` false and keeps date, project and edit state. */
  lemma OnSaveEndsNotSaving(s: State, post: Reply<TimeEntry>, reload: Reply<seq<TimeEntry>>)
    ensures !OnSave(s, post, reload).state.saving
    ensures OnSave(s, post, reload).state.date == s.date
    ensures OnSave(s, post, reload).state.projectId == s.projectId
    ensures OnSave(s, post, reload).state.editingId == s.editingId
    ensures OnSave(s, post, reload).state.editMinutes == s.editMinutes
    ensures OnSave(s, post, reload).state.editNote == s.editNote
  {
  }

  /** After a failed POST the form is intact, so saving again posts the same entry. */
  lemma OnSaveRetryPostsSameEntry(s: State, p1: Reply<TimeEntry>, r1: Reply<seq<TimeEntry>>,
                                  p2: Reply<TimeEntry>, r2: Reply<seq<TimeEntry>>)
    requires p1.Failed?
    ensures OnSave(OnSave(s, p1, r1).state, p2, r2).sent[0] == OnSave(s, p1, r1).sent[0]
  {
  }

  /** An unconfirmed delete sends nothing and changes nothing. */
  lemma OnDeleteUnconfirmed(s: State, id: int, del: Reply<()>, reload: Reply<seq<TimeEntry>>)
    ensures OnDelete(s, id, false, del, reload) == Step(s, [])
  {
  }

  /** A confirmed delete that fails leaves everything, the entries included: there is no optimistic removal. */
  lemma OnDeleteFailed(s: State, id: int, del: Reply<()>, reload: Reply<seq<TimeEntry>>)
    requires del.Failed?
    ensures OnDelete(s, id, true, del, reload) == Step(s, [DeleteEntry(id)])
  {
  }

  /** A confirmed delete that succeeds reloads the day and changes nothing else. */
  lemma OnDeleteSucceeded(s: State, id: int, del: Reply<()>, reload: Reply<seq<TimeEntry>>)
    requires del.Ok?
    ensures OnDelete(s, id, true, del, reload).sent == [DeleteEntry(id), ListEntries(UserId, s.date)]
    ensures OnDelete(s, id, true, del, reload).state.entries == if reload.Ok? then reload.value else s.entries
    ensures OnDelete(s, id, true, del, reload).state.(entries := s.entries) == s
  {
  }

  /** `startEdit` fills the edit slot and the drafts from the entry and changes nothing else. */
  lemma StartEditSeedsDraft(s: State, entry: TimeEntry)
    ensures StartEdit(s, entry).editingId == Some(entry.id)
    ensures StartEdit(s, entry).editMinutes == entry.durationMinutes
    ensures entry.note.Some? ==> StartEdit(s, entry).editNote == entry.note.value
    ensures entry.note.None? ==> StartEdit(s, entry).editNote == ""
    ensures StartEdit(s, entry).(editingId := s.editingId, editMinutes := s.editMinutes,
                                 editNote := s.editNote) == s
  {
  }

  /** The edit slot holds one entry: starting a second edit silently replaces the first. */
  lemma StartEditReplacesEdit(s: State, first: TimeEntry, second: TimeEntry)
    ensures StartEdit(StartEdit(s, first), second) == StartEdit(s, second)
  {
  }

  /** `cancelEdit` leaves edit mode and keeps the entries and the drafts. */
  lemma CancelEditKeepsDrafts(s: State)
    ensures CancelEdit(s).editingId.None?
    ensures CancelEdit(s).(editingId := s.editingId) == s
    ensures CancelEdit(CancelEdit(s)) == CancelEdit(s)
  {
  }

  /** Starting an edit and cancelling it leaves the entries as they were and returns to no edit. */
  lemma StartThenCancel(s: State, entry: TimeEntry)
    ensures CancelEdit(StartEdit(s, entry)).entries == s.entries
    ensures CancelEdit(StartEdit(s, entry)).editingId.None?
  {
  }

  /** A successful PATCH carries only the drafts, ends edit mode and reloads the day. */
  lemma SaveEditSucceeded(s: State, id: int, patch: Reply<()>, reload: Reply<seq<TimeEntry>>)
    requires patch.Ok?
    ensures SaveEdit(s, id, patch, reload).sent ==
      [UpdateEntry(id, s.editMinutes, s.editNote), ListEntries(UserId, s.date)]
    ensures SaveEdit(s, id, patch, reload).state.editingId.None?
    ensures SaveEdit(s, id, patch, reload).state.entries == if reload.Ok? then reload.value else s.entries
    ensures SaveEdit(s, id, patch, reload).state.(editingId := s.editingId, entries := s.entries) == s
  {
  }

  /** A failed PATCH changes nothing: edit slot, drafts and entries stay. */
  lemma SaveEditFailed(s: State, id: int, patch: Reply<()>, reload: Reply<seq<TimeEntry>>)
    requires patch.Failed?
    ensures SaveEdit(s, id, patch, reload) == Step(s, [UpdateEntry(id, s.editMinutes, s.editNote)])
  {
  }

  /** After a failed PATCH the drafts survive, so saving again sends the same update. */
  lemma SaveEditRetrySendsSameUpdate(s: State, id: int, p1: Reply<()>, r1: Reply<seq<TimeEntry>>,
                                     p2: Reply<()>, r2: Reply<seq<TimeEntry>>)
    requires p1.Failed?
    ensures SaveEdit(SaveEdit(s, id, p1, r1).state, id, p2, r2).sent[0] == SaveEdit(s, id, p1, r1).sent[0]
  {
  }

  /**
   * No handler computes entries on its own: after create, update or delete
   * the entries are either the ones held before or exactly the list the last
   * request, a reload of the current day, returned.
   */
  lemma MutationsOnlyReload(s: State, post: Reply<TimeEntry>, id: int, confirmed: bool,
                            done: Reply<()>, reload: Reply<seq<TimeEntry>>)
    ensures var t := OnSave(s, post, reload);
      t.state.entries == s.entries ||
      (reload.Ok? && t.state.entries == reload.value && t.sent[|t.sent| - 1] == ListEntries(UserId, s.date))
    ensures var t := OnDelete(s, id, confirmed, done, reload);
      t.state.entries == s.entries ||
      (reload.Ok? && t.state.entries == reload.value && t.sent[|t.sent| - 1] == ListEntries(UserId, s.date))
    ensures var t := SaveEdit(s, id, done, reload);
      t.state.entries == s.entries ||
      (reload.Ok? && t.state.entries == reload.value && t.sent[|t.sent| - 1] == ListEntries(UserId, s.date))
  {
  }

  /**
   * Editing entry 1 of 2024-03-01 (90 minutes, note "design") to 120 minutes
   * and saving sends a PATCH with 120 and "design", then reloads that day.
   */
  lemma EditScenario(s: State, reloaded: seq<TimeEntry>)
    requires s.date == "2024-03-01"
    ensures var e := TimeEntry(1, UserId, 2, "2024-03-01", 90, Some("design"));
      var drafted := Input(StartEdit(s, e), EditMinutesTyped(120));
      var t := SaveEdit(drafted, 1, Ok(()), Ok(reloaded));
      t.sent == [UpdateEntry(1, 120, "design"), ListEntries(UserId, "2024-03-01")] &&
      t.state.entries == reloaded && t.state.editingId.None?
  {
  }
}
