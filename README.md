# Project board: a Dafny model of its store, validator, form and columns

The program is a browser project board. A form collects a title, a description
and a head count. An accepted entry becomes an `Active` project in a single
shared store. The store then calls each registered listener with a copy of its
list. The listeners belong to two columns, "Active" and "Finished". Each
column keeps the projects of its own status, and a drop on a column asks the
store to move the dragged project to that status.

The model has one module per component:

- `Validation` (validation.dfy): JavaScript's `trim`, the `IValidationText`
  record, and `isValidInput`. The validator is written out twice in the source,
  at src/utils/validation.ts:8-16 and src/app.ts:78-86. The two copies are the
  same, so the model defines it once.
- `Projects` (projects.dfy): the `Project` record and `ProjectStatus`.
- `Items` (items.dfy): the card caption `personsText`, together with the decimal
  rendering that the template literal performs and its inverse.
- `Columns` (columns.dfy): the column class `ProjectList`. It holds its type,
  its `assignedProjects` and its `droppable` mark. The module also has the
  status filter, the drop's status mapping and the drag-over test.
- `Store` (store.dfy): the class `ProjectState`. It holds `projects`, its
  `listeners` and a ghost log of every listener call. `Registry` holds the
  static `instance` field that `getInstance` fills lazily.
- `Form` (form.dfy): the acceptance rule of `gatherUserInput`, and the class
  `ProjectInput` with its fields, `clearInputs` and `submitHandler`.
- `App` (app.dfy): start-up (the store, the form, the two columns) and the
  results of a first accepted or rejected submission on a fresh board.

Modelling choices:

- The only listeners the program registers are the column callbacks. So a
  listener is modelled as the `ProjectList` whose cached list it replaces.
  `AddProject` calls each listener in a loop and logs `(index, snapshot)`.
- The store is a global in the source. Here it is passed to the form and the
  columns as a parameter.
- The new project's id comes from `Math.random()` in the source. Here it is a
  parameter, and the model promises nothing about uniqueness.
- The people field is `Blank` (the empty string) or a number. `Number('')` is
  0, so a cleared field reads as 0.
- The drag-and-drop handlers follow src/components/project-list.ts. In the
  single-file version in src/app.ts the drop handler is empty and the
  drag-over handler does not test the transfer.
- The code does not make ids unique. Its drag-over handler accepts only a
  `text/plain` transfer. `peopleAmount` is any number that is not below 1,
  not necessarily an integer.
- A value's `length` counts UTF-16 code units. A character outside the Basic
  Multilingual Plane, such as an emoji, counts as 2.

## Model

| member | source | states |
|---|---|---|
| `Validation.Trim` | src/utils/validation.ts:9 | the trimmed value is no longer than the value and neither of its ends is white-space |
| `Validation.TrimStartSplit` | src/utils/validation.ts:9 | what the leading cut removes is a run of white-space in front of the rest |
| `Validation.TrimEndSplit` | src/utils/validation.ts:9 | what the trailing cut removes is a run of white-space after the rest |
| `Validation.TrimDecomposition` | src/utils/validation.ts:9 | every value is white-space, then its trimmed form, then white-space |
| `Validation.TrimOfPadded` | src/utils/validation.ts:9 | a string with no white-space at either end, padded with white-space, trims back to itself |
| `Validation.TrimIdempotent` | src/utils/validation.ts:9 | trimming twice gives the same as trimming once |
| `Validation.TrimIgnoresPadding` | src/utils/validation.ts:9 | white-space added on either side does not change the trimmed value |
| `Validation.Utf16Length` | src/utils/validation.ts:9 | `length` counts one or two UTF-16 code units per character, so at least the character count and at most twice it |
| `Validation.Utf16LengthOfBmp` | src/utils/validation.ts:9 | a text of Basic Multilingual Plane characters has one code unit per character |
| `Validation.Utf16LengthConcat` | src/utils/validation.ts:9 | the length of a concatenation is the sum of the lengths of its parts |
| `Validation.Utf16LengthOfAstral` | src/utils/validation.ts:9 | every character from U+10000 up counts as two code units |
| `Validation.AstralCountsTwice` | src/utils/validation.ts:9 | the emoji U+1F600 has length 2 |
| `Validation.IsValidInput` | src/utils/validation.ts:8-16 | valid iff not required, or the trimmed value is non-empty and its UTF-16 length is within `[minLength, maxLength]` |
| `Validation.NotRequiredAlwaysValid` | src/utils/validation.ts:12 | without `required` every value passes for every pair of bounds |
| `Validation.RequiredBlankInvalid` | src/utils/validation.ts:13 | a required value that is empty or only white-space fails whatever the bounds |
| `Validation.RequiredNonEmptyInRange` | src/utils/validation.ts:14-15 | a required value with a non-empty trimmed form passes iff its trimmed length is within the bounds |
| `Validation.EmptyRangeRejectsAll` | src/utils/validation.ts:14 | with `minLength > maxLength` no required value passes |
| `Validation.DependsOnTrimmedLength` | src/utils/validation.ts:9-10 | two records with equal trimmed lengths, flags and bounds get the same verdict |
| `Validation.PaddingDoesNotMatter` | src/utils/validation.ts:9 | padding the value with white-space never changes the verdict |
| `Items.DecimalRoundTrip` | src/app.ts:154 | the rendered decimal text of an integer reads back as that integer |
| `Items.IntToDecimal` | src/app.ts:154 | the text `${n}` gives is non-empty, has no space, and starts with a minus sign exactly when n is negative |
| `Items.PersonsText` | src/app.ts:150-156 | the caption is the count's decimal text then " person" when the count is 1, " persons" otherwise |
| `Items.PersonsTextReadsBack` | src/app.ts:150-156 | the number before the caption's first space is `peopleAmount` |
| `Items.PluralUnlessOne` | src/app.ts:151-155 | the caption ends in "s" exactly when the count is not 1 |
| `Items.PersonsTextInjective` | src/app.ts:150-156 | equal captions mean equal head counts |
| `Columns.RelevantProjects` | src/components/project-list.ts:49-52 | the filtered list is no longer than the snapshot and holds only projects of the column's status |
| `Columns.IsRelevant` | src/components/project-list.ts:49-52 | the Active column keeps exactly the Active projects, the Finished column exactly the Finished ones |
| `Columns.RelevantCounts` | src/components/project-list.ts:49-52 | every project of the column's status occurs as often as in the snapshot; no other project occurs |
| `Columns.RelevantIsSubsequence` | src/components/project-list.ts:49-52 | the filtered list is a subsequence of the snapshot, so the order is kept |
| `Columns.RelevantOfConcat` | src/components/project-list.ts:49-52 | filtering a concatenation concatenates the filtered parts |
| `Columns.ColumnsPartition` | src/components/project-list.ts:49-52 | the Active and Finished columns together hold the snapshot exactly; each project of it is in exactly one of them |
| `Columns.DropStatus` | src/components/project-list.ts:34 | a drop requests Active exactly on the Active column, Finished otherwise |
| `Columns.DropStatusIsShown` | src/components/project-list.ts:34 | a column keeps a project iff its status is the one a drop on that column requests, so a project moved there shows there |
| `Columns.ProjectList.constructor` | src/components/project-list.ts:12-14 | a new column has its type, no assigned projects and no droppable mark |
| `Columns.ProjectList.OnProjects` | src/components/project-list.ts:48-54 | `assignedProjects` is replaced by the snapshot's projects of the column's status |
| `Columns.ProjectList.DragOverHandler` | src/components/project-list.ts:21-27 | the drop is accepted iff a transfer is present and its first type is `text/plain`; the list is marked droppable either way |
| `Columns.ProjectList.DragLeaveHandler` | src/components/project-list.ts:39-42 | the droppable mark is removed and the assigned projects are unchanged |
| `Columns.ProjectList.DropHandler` | src/components/project-list.ts:30-36 | the move request carries the dragged id unchanged and the status this column shows |
| `Store.NotifyAll` | src/app.ts:65 | one call per listener, the k-th to listener k, each with the same snapshot |
| `Store.ProjectState.constructor` | src/app.ts:33-46 | a new store has no projects, no listeners and has made no calls |
| `Store.ProjectState.AddListener` | src/app.ts:35-37 | the listener is appended at the end, with no deduplication; the projects and earlier listeners are unchanged |
| `Store.ProjectState.AddProject` | src/app.ts:55-66 | an Active project with the given fields is appended; each listener is then called once, in order, with the new list; every column then holds its share of it |
| `Store.Registry.GetInstance` | src/app.ts:48-53 | the store is created only when none exists, and the same store is returned on every later call |
| `Store.Registry.constructor` | src/app.ts:42 | at start no store instance exists |
| `Form.GatherUserInput` | src/components/project-input.ts:27-55 | the entry is accepted iff the trimmed title has 5-50 UTF-16 code units, the trimmed description 10-50, and people is at least 1; an accepted entry carries the raw values |
| `Form.PeopleValue` | src/components/project-input.ts:30 | the numeric reading of the people field: 0 for the empty field, as `Number('')` gives, and the number otherwise |
| `Form.BlankPeopleRejected` | src/components/project-input.ts:30-48 | a blank people field reads as 0 and fails the at-least-one test, so the entry is rejected whatever the title and description |
| `Form.EmojiTitleAccepted` | src/components/project-input.ts:32-37 | a title of three U+1F600 emoji has trimmed length 6 and the entry is accepted |
| `Form.TitleBoundaries` | src/components/project-input.ts:32-37 | trimmed titles of lengths 4 and 51 are rejected, 5 and 50 accepted |
| `Form.DescriptionBoundaries` | src/components/project-input.ts:38-43 | trimmed descriptions of lengths 9 and 51 are rejected, 10 and 50 accepted |
| `Form.PaddedTitleKeepsPadding` | src/components/project-input.ts:28-29 | padding the title does not change acceptance, and the padded title is what is returned |
| `Form.ProjectInput.constructor` | src/components/project-input.ts:12-20 | the form holds the three fields' initial contents |
| `Form.ProjectInput.ClearInputs` | src/components/project-input.ts:57-61 | all three fields become empty |
| `Form.ProjectInput.SubmitHandler` | src/components/project-input.ts:64-72 | an accepted entry is added once with its raw values and the fields are cleared; a rejected one changes neither the store, the columns nor the fields |
| `App.NewColumn` | src/components/project-list.ts:12-18 | a new column starts empty and its listener is appended to the store's listeners |
| `App.Boot` | src/app.ts:68 | on start-up the store is obtained once through `getInstance` (with the objects built at src/app.ts:315-317), the store is empty, and its listeners are the Active column, then the Finished column |
| `App.FirstSubmission` | src/components/project-input.ts:64-72 | after a first accepted entry the listeners are the Active then the Finished column; the Active column holds exactly that project, the Finished column is empty, and each column was called once, in that order |
| `App.RejectedSubmission` | src/components/project-input.ts:45-51 | after a rejected entry the store and both columns are empty and the form keeps its values |
| `App.SubmitTwice` | src/components/project-input.ts:57-72 | a second submit straight after an accepted one adds nothing: the cleared form is rejected, and the store, the columns and the log stay as the first submit left them |

## Left out

- Rendering: the `Component` base class, `renderDOM`, `renderDOMContent`,
  `renderProjects`, `querySelector`, `innerHTML`, and the `alert` on a rejected
  entry. These are browser calls with no state the model tracks.
- The `autoBind` decorator. It only binds `this`.
- Id generation with `Math.random().toString()`. The id is a parameter.
- JavaScript strings can hold lone surrogate code units. A Dafny `string`
  holds only Unicode scalar values, so such strings are not modelled.
- `Number(...)` parsing of the people field. The model takes the field as empty
  or as an integer. A field reading as `NaN` would pass the `< 1` test in the
  source. Fractional counts are not modelled.
- `Validation.IsValidInput`: takes the bounds as integers; the source's bounds
  are JavaScript numbers, and fractional bounds are not modelled.
- `Items.PersonsText`: uses decimal integer text. JavaScript writes numbers of
  magnitude 1e21 or more in exponent form, and fractions with a point; neither
  is modelled.
- `moveProject`: the drop handler calls it, but its implementation
  (`state/project-state`) is not part of this model. The drop is modelled as the
  `MoveRequest` value it issues.
- The re-render a listener triggers after replacing `assignedProjects`.
- Event registration (`addEventListener`) and the browser event loop, beyond
  calling the handlers directly. The empty stub handlers of src/app.ts:167-172
  and 205-207 are not modelled.
- `dragStartHandler` of src/components/project-item.ts only writes to the
  browser's `dataTransfer`. Its `personsText` repeats src/app.ts:150-156.
- A column registered after projects exist starts empty until the next
  `addProject`. That is the source's behaviour, and the model keeps it.
