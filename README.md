# Work-Time-Tracker: a verified model of the entry form and day list

Work-Time-Tracker is a single-page React client for logging daily work-time
entries against projects, backed by a REST API. This project models its core
in Dafny:

- the state of the `App` component and its handlers, from `src/App.tsx`:
  the entry form (`date`, `projectId`, `minutes`, `note`), the day's
  `entries`, the `projects`, the `saving` flag, the `error` text, and the
  single edit slot (`editingId`, `editMinutes`, `editNote`). The handlers
  are `loadDay`, `onSave`, `onDelete`, `startEdit`, `saveEdit`,
  `cancelEdit`, the two mount effects and the form's `onChange` setters;
- the project-name lookup with its `Project #<id>` fallback;
- `formatDateDisplay` from `src/utils/dates.ts`, and its inline copy in `App.tsx`.

Files:

- `wrappers.dfy`: `Option`, for TypeScript's optional values and `??`.
- `dates.dfy` (module `Dates`): JavaScript's `split("-")` and `join("-")`,
  proved inverse to each other; `formatDateDisplay` and its properties.
- `decimal.dfy` (module `Decimal`): how a template literal prints an integer,
  with a parser and a round-trip proof.
- `app_logic.dfy` (module `AppLogic`): the data types, one pure transition
  per handler, the lookup, the inline date helper, and the lemmas.
- `app.dfy` (module `App`): class `Component`. It has one field per piece of
  React state and one method per handler. It changes its fields step by step
  in the order the handler calls its setters. Each method's `ensures` ties
  the new `View()` and the requests sent to the `AppLogic` transition.

Each awaited request is a parameter of type `Reply<T>`: `Ok(data)`, or
`Failed(message)` when the response was not ok or the request threw. The
`confirm` dialog is a boolean parameter. Each handler returns the requests it
sent, in order: `ListProjects`, `ListEntries(userId, date)`,
`CreateEntry(body)`, `UpdateEntry(id, durationMinutes, note)` or
`DeleteEntry(id)`.

Behaviour of the code worth noting:

- `onSave` does no client-side validation of the minutes or the project id.
  The minutes input only carries the HTML attributes `min={1}` and `step={15}`
  (App.tsx:148-149), which the browser checks before the form is submitted.
- `loadDay` has no guard against a stale response after a day switch.
- `startEdit` does not refuse a second edit. It silently replaces the edit slot and the drafts.
- When the POST of `onSave` succeeds but the reload then throws, note and
  minutes are already reset, and the reload's message becomes the error.
- When the PATCH of `saveEdit` succeeds but the reload then throws, edit mode
  is already left. The entries keep their old values.
- Choosing the date that is already selected does not re-run the effect, so no request is sent.
- A missing part in `formatDateDisplay` prints as `undefined`, because of
  JavaScript array destructuring in a template literal.
- Dates are `YYYY-MM-DD`, as the comment at App.tsx:10 says. The comment in
  `types.ts` says otherwise.

## Model

| member | source | states |
|---|---|---|
| `App.Component.constructor` | Work-Time-Tracker/src/App.tsx:27-40 | initial state: the given day, project 1, 60 minutes, empty note, no projects or entries, not saving, no error, no entry in edit, drafts 60 and "" |
| `App.Component.LoadDay` | Work-Time-Tracker/src/App.tsx:48-53 | new state and requests are those of `AppLogic.LoadDay` |
| `App.Component.Mount` | Work-Time-Tracker/src/App.tsx:42-56 | new state and requests are those of `AppLogic.Mount` |
| `App.Component.SelectDay` | Work-Time-Tracker/src/App.tsx:54-131 | `setDate` (line 131) followed by the `[date]` effect (lines 54-56): new state and requests are those of `AppLogic.SelectDay` |
| `App.Component.Input` | Work-Time-Tracker/src/App.tsx:134-224 | new state is that of `AppLogic.Input` |
| `App.Component.OnSave` | Work-Time-Tracker/src/App.tsx:59-79 | new state and requests are those of `AppLogic.OnSave` |
| `App.Component.OnDelete` | Work-Time-Tracker/src/App.tsx:82-93 | new state and requests are those of `AppLogic.OnDelete` |
| `App.Component.StartEdit` | Work-Time-Tracker/src/App.tsx:96-100 | new state is that of `AppLogic.StartEdit` |
| `App.Component.SaveEdit` | Work-Time-Tracker/src/App.tsx:101-114 | new state and requests are those of `AppLogic.SaveEdit` |
| `App.Component.CancelEdit` | Work-Time-Tracker/src/App.tsx:115-117 | new state is that of `AppLogic.CancelEdit` |
| `AppLogic.LoadDayReplacesEntries` | Work-Time-Tracker/src/App.tsx:48-53 | one GET for the day (user 1); on success the entries become the server's list; on failure nothing changes |
| `AppLogic.MountLoadsProjectsAndDay` | Work-Time-Tracker/src/App.tsx:42-56 | mounting requests the projects and the initial day's entries; each arriving list is stored; a failure leaves that field alone; nothing else changes |
| `AppLogic.SelectDayLoadsNewDay` | Work-Time-Tracker/src/App.tsx:54-131 | `setDate` (line 131) then the `[date]` effect (lines 54-56): a different day is stored and loaded with one GET; reselecting the current day sends nothing and changes nothing; only date and entries can change |
| `AppLogic.InputChangesOneField` | Work-Time-Tracker/src/App.tsx:134-224 | each of the five setters sets exactly the field typed into to the typed value and leaves every other field, the other four editable ones included, as it was |
| `AppLogic.OnSaveSucceeded` | Work-Time-Tracker/src/App.tsx:59-79 | POST of {user 1, projectId, date, minutes, note}, then the day's reload; note becomes "", minutes 60, entries the reload; date and project kept, saving false, error cleared |
| `AppLogic.OnSaveFailed` | Work-Time-Tracker/src/App.tsx:74-78 | a failed POST sends nothing more; the error becomes its message, or "Error while saving" when there is none; the form and the entries are unchanged; saving false |
| `AppLogic.OnSaveReloadFailed` | Work-Time-Tracker/src/App.tsx:71-77 | POST ok but the reload throws: the form is already reset, the error is the reload's message, the entries are unchanged |
| `AppLogic.OnSaveEndsNotSaving` | Work-Time-Tracker/src/App.tsx:76-78 | whatever the outcomes, saving ends false, and date, project and the edit slot are kept |
| `AppLogic.OnSaveRetryPostsSameEntry` | Work-Time-Tracker/src/App.tsx:64-75 | after a failed POST, saving again posts the identical entry |
| `AppLogic.OnDeleteUnconfirmed` | Work-Time-Tracker/src/App.tsx:83 | an unconfirmed delete sends no request and changes no state |
| `AppLogic.OnDeleteFailed` | Work-Time-Tracker/src/App.tsx:85-89 | a failed delete sends only the DELETE and changes no state, so there is no optimistic removal |
| `AppLogic.OnDeleteSucceeded` | Work-Time-Tracker/src/App.tsx:85-92 | DELETE, then the day's reload; the entries become the reload's list; nothing else changes |
| `AppLogic.StartEditSeedsDraft` | Work-Time-Tracker/src/App.tsx:96-100 | the edit slot takes the entry's id; the drafts take its minutes and its note, or "" when it has none; no other field changes |
| `AppLogic.StartEditReplacesEdit` | Work-Time-Tracker/src/App.tsx:96-100 | starting a second edit is the same as starting only the second: the first is silently replaced |
| `AppLogic.CancelEditKeepsDrafts` | Work-Time-Tracker/src/App.tsx:115-117 | edit mode ends; entries and drafts are kept; cancelling is idempotent; it sends nothing, because it is a pure state change |
| `AppLogic.StartThenCancel` | Work-Time-Tracker/src/App.tsx:96-117 | starting and then cancelling an edit keeps the entries and ends with no entry in edit |
| `AppLogic.SaveEditSucceeded` | Work-Time-Tracker/src/App.tsx:101-110 | PATCH of the id with only the two drafts, then the day's reload; edit mode ends; the entries become the reload's list; drafts and form are kept |
| `AppLogic.SaveEditFailed` | Work-Time-Tracker/src/App.tsx:108-113 | a failed PATCH changes no state: edit slot, drafts and entries stay |
| `AppLogic.SaveEditRetrySendsSameUpdate` | Work-Time-Tracker/src/App.tsx:101-113 | after a failed PATCH, saving again sends the identical update |
| `AppLogic.MutationsOnlyReload` | Work-Time-Tracker/src/App.tsx:59-113 | after create, update or delete, the entries are either the old ones or exactly what the final reload of the current day returned |
| `AppLogic.EditScenario` | Work-Time-Tracker/src/App.tsx:96-110 | editing entry 1 (90 minutes, "design") to 120 sends a PATCH with 120 and "design", then reloads that day |
| `AppLogic.FindProject` | Work-Time-Tracker/src/App.tsx:194 | None exactly when no project has the id; otherwise the first project with that id |
| `AppLogic.ProjectName` | Work-Time-Tracker/src/App.tsx:194-195 | the name of the first project with the id; "Project #" and the id in decimal when there is none |
| `AppLogic.FallbackLabelsDistinct` | Work-Time-Tracker/src/App.tsx:195 | two unknown ids get the same fallback label only if they are equal |
| `AppLogic.FormatDateDisplay` | Work-Time-Tracker/src/App.tsx:16-19 | the inline copy of the date re-formatter; its properties are those of `Dates.FormatDateDisplay`, by `AppLogic.InlineFormatAgrees` |
| `AppLogic.InlineFormatAgrees` | Work-Time-Tracker/src/App.tsx:16-19 | the inline date helper equals the one in `utils/dates.ts` on every input |
| `Decimal.IntToString` | Work-Time-Tracker/src/App.tsx:195 | `${id}` for an integer id: a `-` sign for negatives, then the decimal numeral; `Decimal.IntToStringInjective` and `Decimal.NatRoundTrip` carry its properties |
| `Decimal.NatToString` | Work-Time-Tracker/src/App.tsx:195 | the numeral is nonempty, all decimal digits, without a leading zero |
| `Decimal.NatRoundTrip` | Work-Time-Tracker/src/App.tsx:195 | reading the numeral of n in base ten gives n |
| `Decimal.IntToStringInjective` | Work-Time-Tracker/src/App.tsx:195 | distinct integers print differently |
| `Dates.FormatDateDisplay` | Work-Time-Tracker/src/utils/dates.ts:1-4 | the re-formatter; its properties are carried by `Dates.ThreeParts`, `Dates.ComponentSwap`, `Dates.Involution`, `Dates.ShapePreserved`, `Dates.ExtraPartsDropped` and `Dates.MissingPartsUndefined` |
| `Dates.Part` | Work-Time-Tracker/src/utils/dates.ts:2 | array destructuring: the i-th piece, or `undefined` past the end; used by `Dates.MissingPartsUndefined` |
| `Dates.Split` | Work-Time-Tracker/src/utils/dates.ts:2 | one more piece than there are dashes; no piece contains a dash |
| `Dates.JoinSplit` | Work-Time-Tracker/src/utils/dates.ts:2 | joining the pieces of a split with "-" gives back the string |
| `Dates.SplitJoin` | Work-Time-Tracker/src/utils/dates.ts:2 | splitting a join of dash-free pieces gives back the pieces |
| `Dates.ThreeParts` | Work-Time-Tracker/src/utils/dates.ts:1-4 | for three dash-free parts, `y-m-d` becomes `d-m-y` |
| `Dates.ComponentSwap` | Work-Time-Tracker/src/utils/dates.ts:2-3 | with at least two dashes, the output splits into the input's third, second and first piece: the middle stays, the outer two swap |
| `Dates.Involution` | Work-Time-Tracker/src/utils/dates.ts:2-3 | with exactly two dashes, formatting twice gives back the input |
| `Dates.ShapePreserved` | Work-Time-Tracker/src/utils/dates.ts:2-3 | with exactly two dashes, the output has the input's length and exactly two dashes |
| `Dates.ExtraPartsDropped` | Work-Time-Tracker/src/utils/dates.ts:2 | `a-b-c-rest` becomes `c-b-a`: pieces after the third are dropped |
| `Dates.ExtraPartsExample` | Work-Time-Tracker/src/utils/dates.ts:2 | "a-b-c-d" becomes "c-b-a" |
| `Dates.MissingPartsUndefined` | Work-Time-Tracker/src/utils/dates.ts:2-3 | with fewer than two dashes, the missing pieces print as "undefined" |

## Left out

- The transport in `src/lib/api.ts`: `fetch`, JSON, the base URL and the query-string encoding. Each request is one `Reply` parameter, and requests are named by their abstract content, not by their URL.
- `todayLocalISODate` (App.tsx:20-24), because it reads the clock and the time zone. The initial day is a constructor parameter.
- Rendering. This covers the JSX, CSS classes, which row shows the drafts, and the `alert` and `confirm` dialogs (`confirm` is a boolean parameter). It also covers `console.error` and `e.preventDefault()`.
- React scheduling and async interleaving. Each handler runs to completion as one call, so a handler closing over stale state, and responses arriving out of order, are not modelled. The `saving` flag is therefore only seen as `false` between handlers; its `true` phase during the POST is set but never observed.
- The browser's constraint validation of the minutes input (`min={1}`, `step={15}`, App.tsx:148-149), applied before `onSubmit` fires, is not modelled: `onSave` runs on any minutes value. The draft input carries the same attributes (App.tsx:216-217), but it is not in a form, so they do not gate `saveEdit`.
- `Number(e.target.value)` on the number inputs. It can produce `NaN` or fractions; the model takes an `int`.
- JavaScript numbers are IEEE doubles. Ids and minutes are modelled as unbounded integers. `Decimal.IntToString` prints them plainly, whereas JavaScript switches to exponent notation from 10^21.
- `types.ts`. It only declares types, and the model uses the shapes declared in `App.tsx`.
