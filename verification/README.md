# Patient management system: a verified model in Dafny

The system is a small clinic application with two halves.

- **The server** (`app.py`) is a Flask application over a MongoDB `patients` collection and a `users` collection. Its routes are:
  - registration and login, which issue a JWT whose claims carry the user's roles;
  - a role gate in front of every patient route;
  - list, get, add, update and delete of patient documents;
  - three analytics aggregations: the gender distribution, the department distribution and the ten most frequent visitors.
- **The dashboard** (`static/dashboard.js`) is the script behind the single page the staff use. It:
  - validates the patient form field by field;
  - sends authenticated requests through one `fetchData` helper that classifies every answer;
  - keeps the whole patient list in memory and filters it on a search term;
  - switches the form between create and edit mode through a hidden id input;
  - asks for confirmation before a delete;
  - draws the analytics as pie and bar charts.

How the model is organised:

- **Pure decisions** are Dafny functions with contracts.
- **State that the source updates in place** lives in two classes:
  - `Server.PatientStore` holds the two collections and the source of fresh ObjectIds;
  - `Dashboard.DashboardPage` holds the script's module variables and the parts of the page and browser it writes.
- **Loops in the source** are methods with loop invariants, each proved against a specification function:
  - building the `get_patients` list;
  - stringifying the `_id`s of `frequent_visitors`;
  - drawing one table row per patient.
- **Modules:**
  - `Text`: JavaScript `trim`, ASCII lower-casing, `includes`, `split`/`join`, decimal and hexadecimal digits.
  - `Records`: the documents and request bodies.
  - `ObjectIds`: 24-hex-digit ids.
  - `Validators`, `CommaLists`, `Fetch`, `Search`, `Charts` and `Dashboard`: the client.
  - `PatientIds`, `Analytics`, `Auth` and `Server`: the server.
  - `EndToEnd`: properties that join the two halves.

Modelling choices:

- **JSON keys.** A JSON request key is a `Field<T>`: absent, `null`, or present with a value. Python's `data.get(k)` reads the first two alike. `data.get(k, default)` gives the default only for an absent key, and the routes depend on that difference.
- **Unhandled exceptions.** An exception that escapes a handler (Flask's 500 page) is modelled as a result of its own (`ServerError`, `GateCrash`, `AddFails`, `UpdateFails`). Examples:
  - a `null` `contact_info`;
  - a malformed id in `update_patient`;
  - a `null` roles claim;
  - a stored `patient_id` whose digits overflow `$toInt`.
- **Request bodies.** A request the dashboard sends carries the form it was built from. `Dashboard.Body` gives its JSON body, and `Records.AsRequest` is that body as the server reads it.
- **Where the code and the documentation differ.** Some descriptions of the system say that a 401/403 answer removes the stored token. The code at `static/dashboard.js:196-202` shows the session message and schedules the redirect, but keeps the token. The model follows the code.

## Model

| member | source | states |
|---|---|---|
| Validators.ValidateName | static/dashboard.js:98-111 | accepts iff the trimmed name is non-empty and has no ASCII digit; the empty check comes first ("Name is required."), then "Name cannot contain numbers." |
| Validators.NameWithDigitRejected | static/dashboard.js:103-105 | any name with a digit anywhere is rejected with the digits message |
| Validators.DigitRun | static/dashboard.js:114 | the length of the leading digit run: every char before it is a digit, the one after is not |
| Validators.ParseIntOfString | static/dashboard.js:114 | parseInt reads back every integer written in decimal |
| Validators.ParseIntDecimal | static/dashboard.js:114 | whitespace, an optional sign, a run of decimal digits and a tail that does not continue the number (no digit, and no "x" after a lone "0"): parseInt reads the signed value of the digits |
| Validators.ParseIntNaN | static/dashboard.js:114 | whitespace and an optional sign followed by no digit give NaN |
| Validators.ParseIntAfterSpaces | static/dashboard.js:304 | past leading whitespace and one sign, parseInt is the magnitude of the rest, negated for '-' |
| Validators.ValidateAge | static/dashboard.js:113-126 | accepts iff parseInt gives a number with 1 <= age <= 120; above 120 "Age cannot exceed 120 years.", otherwise (NaN or <= 0) "Age must be a positive number." |
| Validators.AgeOfNumber | static/dashboard.js:113-126 | for an age typed as a number: accepted iff 1..120, and which message each side of the range gets |
| Validators.ValidateGender | static/dashboard.js:128-137 | accepts iff the selected value is non-empty (no trim) |
| Validators.ValidateDepartment | static/dashboard.js:139-148 | accepts iff the trimmed value is non-empty |
| Validators.ValidatePhone | static/dashboard.js:150-159 | accepts iff the trimmed value is empty or at least ten ASCII digits and nothing else |
| Validators.ValidateEmail | static/dashboard.js:161-170 | accepts iff the trimmed value is empty or matches the address pattern |
| Validators.EmailPatternCharacterized | static/dashboard.js:163 | the pattern holds iff there is no whitespace, exactly one '@' with a non-empty local part, and a '.' in the domain that is neither its first nor its last character |
| Validators.EmailPatternIsShape | static/dashboard.js:163 | a match of the pattern has that shape |
| Validators.EmailShapeIsPattern | static/dashboard.js:163 | a string of that shape matches the pattern |
| Text.Trim | static/dashboard.js:99 | the result has no leading or trailing JavaScript whitespace |
| Text.TrimIsInfix | static/dashboard.js:99 | trim removes only whitespace, and only from both ends: the result is a contiguous part of the input with nothing but whitespace around it |
| Text.TrimKeepsNonSpace | static/dashboard.js:99 | every non-whitespace character of the input survives trimming |
| Text.TrimIdentity | static/dashboard.js:99 | trim leaves a string unchanged iff it is already trimmed |
| Text.TrimAfterSpaces | static/dashboard.js:246 | leading whitespace before a trimmed non-empty string is dropped |
| Text.ToLower | static/dashboard.js:246 | lower-casing keeps the length and maps every character on its own |
| Text.TrimLower | static/dashboard.js:246 | trimming and lower-casing commute, since no letter is whitespace |
| Text.JoinSplit | static/dashboard.js:309-310 | joining the pieces of a split with the separator gives the input back |
| Text.SplitAtSeparator | static/dashboard.js:309-310 | splitting at the first separator: the piece before it, then the split of the rest |
| Text.NatToStringValue | app.py:167 | the decimal digits of a number read back as the number |
| Text.ZeroPadDigits | app.py:167 | padding with zeros keeps the digits' value and gives at least the requested width |
| Text.LowerHexValue | app.py:115 | the lower-case hex string of an id within the width reads back as the id |
| CommaLists.Clean | static/dashboard.js:309-310 | trimming and dropping empty pieces yields entries that are trimmed, non-empty and comma-free |
| CommaLists.ParseList | static/dashboard.js:309-310 | no parsed entry is empty, untrimmed, or contains a comma |
| CommaLists.ParseFormat | static/dashboard.js:392-393 | parsing the ", "-joined text of a list gives the list back when its entries are trimmed, non-empty and comma-free |
| CommaLists.ParseAfterSpaces | static/dashboard.js:392-393 | the same with leading whitespace before the joined text |
| CommaLists.CleanCons | static/dashboard.js:309-310 | cleaning a first piece and the rest: the trimmed first piece is kept iff it is non-empty |
| CommaLists.ReparseStable | static/dashboard.js:309-310 | reopening a saved list in the form and saving again stores the same entries |
| Fetch.ErrorMessage | static/dashboard.js:207 | the thrown message is the body's msg when it is a non-empty string, otherwise exactly "HTTP error! status: " followed by the decimal status; never empty |
| Fetch.Classify | static/dashboard.js:174-219 | no token (missing or empty) iff navigate-without-request; data iff a token and a 2xx answer; 401/403 the unauthorized path; any other answer or a network error throws with its message |
| Search.Filter | static/dashboard.js:254-257 | every kept patient is in the store and matches the term on lower-cased name or present patient_id |
| Search.FilterExact | static/dashboard.js:254-257 | the filter keeps exactly the matching patients, each as often as the store holds it, in store order |
| Search.RenderRow | static/dashboard.js:264-287 | each drawn row carries the patient's `_id` as its data-id |
| Search.RenderRows | static/dashboard.js:264-287 | one row per patient, in order |
| Search.SearchRows | static/dashboard.js:245-262 | a blank term gives the prompt row; the filter throws (None) iff the term is not blank and some patient has no name; no matching patient gives the no-match row; otherwise one row per matching patient, in store order |
| Search.SearchIgnoresCase | static/dashboard.js:246 | two inputs that lower-case alike draw the same rows |
| Search.EmptySearchShowsPrompt | static/dashboard.js:246-252 | a blank search shows only the prompt row, whatever the store holds |
| Search.JaneExample | static/dashboard.js:245-287 | searching "Jane" over Jane Doe and John Roe draws exactly Jane's row |
| Charts.KindFor | static/dashboard.js:518-522 | the gender and department charts are pies, the visitors chart is a bar chart |
| Charts.DistributionChart | static/dashboard.js:436-452 | labels are the groups' `_id`s and data their counts, index by index |
| Charts.VisitorsChart | static/dashboard.js:454-461 | one bar per visitor, labelled "name (patient_id)", with its visit count |
| Dashboard.SubmitRequest | static/dashboard.js:324-337 | a non-empty hidden id gives PUT /patients/{id}, an empty one POST /patients, both with the form's payload |
| Dashboard.Payload | static/dashboard.js:302-321 | name, department, phone and email are the inputs trimmed (so trimmed, and a name the validator accepts stays non-empty and digit-free); age is parseInt of the input; gender as chosen; both lists hold only trimmed, non-empty, comma-free entries |
| Dashboard.Body | static/dashboard.js:324-337 | a request carries a JSON body iff it carries a form, and that body is the form's payload |
| Dashboard.EditInputs | static/dashboard.js:380-393 | name, gender, department, phone and email are the record's strings, empty when missing; the age input reads back (parseInt) as the record's age, empty when missing; each list input parses back to the record's list when its entries are trimmed, non-empty and comma-free, empty when missing |
| Dashboard.EditThenSaveKeepsRecord | static/dashboard.js:380-393 | filling the form from a record in the form's own shape and saving it builds a payload equal to the record |
| Dashboard.DashboardPage.constructor | static/dashboard.js:35-40 | the page starts in create mode with an empty cache and no charts |
| Dashboard.DashboardPage.FetchData | static/dashboard.js:174-219 | the outcome is the classification; FetchEffects: a request is sent iff a token is stored, the spinner stays shown only without a token, which navigates to "/", and 401/403 schedules the redirect; the message is the session message on 401/403, "Error: <message>" on a throw, unchanged otherwise |
| Dashboard.DashboardPage.ValidateField | static/dashboard.js:98-170 | the handler's verdict is the validator's; the field's error is set to its message or cleared |
| Dashboard.DashboardPage.FilterPatients | static/dashboard.js:245-289 | the table holds exactly the search rows (prompt, no-match row, or one row per match); cleared when the filter throws on a nameless patient |
| Dashboard.DashboardPage.DrawRows | static/dashboard.js:264-287 | the forEach loop draws the rendered rows of the filtered patients in order |
| Dashboard.DashboardPage.LoadPatients | static/dashboard.js:223-242 | FetchEffects of GET /patients; on data the cache is replaced and the table redrawn; a thrown error (fetch or filter) shows the load failure; 401/403 shows the session message; undefined leaves cache, table and message as they were |
| Dashboard.DashboardPage.ResetFormForAdd | static/dashboard.js:407-416 | back to create mode: hidden id cleared, blank inputs, add title and button, no field errors |
| Dashboard.DashboardPage.Submit | static/dashboard.js:292-350 | FetchEffects of PUT in edit mode or POST in create mode; unless the fetch throws, shows the added/updated message and returns to create mode (add title and button, cancel hidden); a thrown error keeps mode, inputs, title, button and cancel button and shows the save failure |
| Dashboard.DashboardPage.EditPatient | static/dashboard.js:371-405 | FetchEffects of GET /patients/{id}; on data the form enters edit mode bound to the fetched `_id` with inputs from the record; otherwise the form is untouched; the message is the session message on 401/403, the load failure on a throw, unchanged otherwise |
| Dashboard.DashboardPage.FillForm | static/dashboard.js:379-401 | edit mode for a fetched record: hidden id set to its `_id`, inputs filled from it, update title and button, cancel shown, no field errors |
| Dashboard.DashboardPage.DeletePatient | static/dashboard.js:352-369 | one prompt per call; declined: nothing is sent or shown; accepted: FetchEffects of exactly one DELETE /patients/{id} and the outcome message |
| Dashboard.DashboardPage.LoadDistributionChart | static/dashboard.js:426-533 | FetchEffects of the distribution's GET; on data only that distribution's chart is replaced by a pie of the groups; the message is the session message on 401/403, the failure with the still-empty label on a throw, unchanged otherwise |
| Dashboard.DashboardPage.LoadVisitorsChart | static/dashboard.js:453-461 | FetchEffects of GET /analytics/frequent-visitors; on data the visitors chart is replaced by a bar chart, otherwise kept; the message as for the distribution charts |
| Dashboard.DashboardPage.Logout | static/dashboard.js:588-594 | the token is removed, the message shown and the redirect scheduled |
| ObjectIds.Parse | app.py:125 | an id string is accepted iff it is exactly 24 hexadecimal digits |
| ObjectIds.ToHex | app.py:115 | str(ObjectId) is a valid id string |
| ObjectIds.ParseToHex | app.py:125 | an id sent as its hex string parses back to the same id |
| ObjectIds.Serialize | app.py:113-116 | the serialised document's `_id` is the id's lower-case hex string (a valid id string); every other field is unchanged |
| ObjectIds.SerializeVisitor | app.py:290-292 | a ranking row's `_id` becomes its lower-case hex string; name, patient_id and visit count are unchanged |
| Auth.RoleGate | app.py:46-56 | the handler runs iff some required role is among the token's roles; a null roles claim with a non-empty role list raises |
| Auth.ClaimedRoles | app.py:38-43 | the roles claim is the stored user's roles (null stays null), or an empty list for an unknown user |
| Auth.UnknownUserRefused | app.py:38-56 | a token issued for a username without a user document passes no role gate |
| Auth.NoRolesDenied | app.py:51-53 | a token without roles, or with an empty list, is refused |
| Auth.GateInclusion | app.py:233 | every token admitted to the doctor/admin routes is admitted to the staff routes; a nurse passes only the latter |
| Auth.CheckHashed | app.py:97 | a stored hash accepts exactly the password it was made from |
| Auth.Register | app.py:70-85 | 400 iff username or password is missing, null or empty (checked before the lookup); 409 iff both are given and the name exists; accepted iff both are given and the name is new, storing the hash and roles defaulting to ["nurse"]; no other status |
| Auth.Login | app.py:87-101 | missing field iff 400; a token iff the user exists and the password checks; otherwise 401; the token's roles are the user's |
| Auth.RegisterThenLogin | app.py:70-101 | logging in right after registering succeeds; without roles the token passes the staff gate and not the doctor/admin gate; null roles make the gate raise |
| PatientIds.MaxIdNumber | app.py:145-157 | the maximum bounds every projected number and is attained (0 for an empty collection) |
| PatientIds.IdNumber | app.py:146-153 | a patient_id of the form P<digits> projects to the value of its digits; any other id, and a missing one, to 0 |
| PatientIds.NextIdNumber | app.py:159-164 | 1 for an empty collection; otherwise one more than the largest projected number, which some document has: the least number above every existing one |
| PatientIds.FormatPatientId | app.py:167 | the id is 'P' followed by at least three characters |
| PatientIds.FormatReadsBack | app.py:149-167 | the generated id matches ^P\d+$ and its digits read back as the number |
| PatientIds.FormatWidth | app.py:167 | numbers below 1000 give four characters; larger numbers are not truncated |
| PatientIds.GeneratedIdIsFresh | app.py:145-191 | the generated id differs from every stored patient_id |
| PatientIds.NextAfterInsert | app.py:145-194 | after inserting the generated id the next number is one larger (P001, P002, ...) |
| Analytics.StrLessTransitive | app.py:261 | the string order of $sort is transitive |
| Analytics.StrLessTotal | app.py:261 | any two distinct strings are ordered one way |
| Analytics.KeyOrder | app.py:261 | the key order (null first, then strings) is a strict total order |
| Analytics.AddKeyCounts | app.py:260 | adding one document raises exactly its key's count by one |
| Analytics.AddKeyAscending | app.py:260-261 | adding one document keeps the rows strictly ascending |
| Analytics.GroupCountCorrect | app.py:259-262 | the rows ascend strictly by key, every count is the number of documents with that key, every count is at least 1, and the counts sum to the number of documents |
| Analytics.RowsAreOccurrences | app.py:259-262 | a key has a row iff some document has that value |
| Analytics.Distribution | app.py:255-274 | one row per distinct value, ascending by key; each value's count is the number of documents with it; every count at least 1; the counts sum to the collection size |
| Analytics.Eligible | app.py:281-282 | every matched document has a visit count of at least 1 |
| Analytics.EligibleExact | app.py:281-282 | the matched rows are, in collection order and once per position, exactly the projections of the documents with a non-empty visit_dates; each row's visit count is the length of its document's visit_dates |
| Analytics.InsertByCount | app.py:283 | inserting into the ranking adds exactly that row |
| Analytics.SortByCount | app.py:283 | the sort is a permutation |
| Analytics.SortByCountSorted | app.py:283 | the sort orders by non-increasing visit count |
| Analytics.Limit | app.py:284 | $limit keeps the first n rows |
| Analytics.FrequentVisitors | app.py:278-285 | at most ten rows, in non-increasing order of visit count |
| Analytics.FrequentVisitorsCorrect | app.py:276-294 | at most ten rows (exactly min(10, matches)); non-increasing counts, all at least 1; only matched documents; every left-out match has a count no larger than any shown row |
| Analytics.RankingCorrect | app.py:283-284 | the same properties for any arrangement of the matched rows in non-increasing visit count, whatever the order of ties |
| Server.Guard | app.py:29-56 | the handler runs iff the token's user still exists and the role gate allows; 401 "User not found" for a vanished user; 403 or a raise otherwise |
| Server.GuardInclusion | app.py:233 | the doctor/admin routes admit only tokens the staff routes admit |
| Server.IndexOf | app.py:125 | finds the document with the id, or reports that none has it |
| Server.IndexOfUnique | app.py:125 | with unique ids, the lookup finds that very document |
| Server.SerializeAll | app.py:113-117 | every document, in collection order, serialised |
| Server.GetOne | app.py:123-132 | a malformed id gives 400 with bson's reason; 200 with the document iff one has the id; 404 otherwise |
| Server.ListedIdFindsRecord | app.py:113-132 | the `_id` the list shows for a document finds it again for get and for delete |
| Server.ContactOf | app.py:175-178 | the contact is phone and email read from the body's contact_info; an absent one gives two nulls; a null one raises |
| Server.DecideAdd | app.py:145-194 | raises iff the stored ids overflow $toInt or contact_info is null; 400 iff otherwise a required field is falsy; an insert carries the generated id, the body's fields, visit_dates defaulting to [] and the creation time |
| Server.AddNeverConflicts | app.py:189-194 | the 409 branch never fires: a body passing validation is inserted |
| Server.ChangesOf | app.py:205-218 | the update set exists iff contact_info is not null |
| Server.ApplyChanges | app.py:220-223 | $set never changes `_id`, patient_id, visit_dates or created_at |
| Server.UpdateSetsSentFields | app.py:205-223 | a field sent with a value is set, a missing or null one kept; contact_info is always replaced; a missing list becomes [] |
| Server.UpdateIdempotent | app.py:220-223 | the same update twice is the same as once |
| Server.DecideUpdate | app.py:202-229 | raises iff contact_info is null or the id is malformed; 404 iff no document has the id; otherwise that document, updated |
| Server.DecideDelete | app.py:234-248 | 400 iff the id is malformed; 404 iff no document has it; otherwise the document with that id |
| Server.Remove | app.py:241 | deleting one document shortens the collection by one |
| Server.RemoveExactly | app.py:241-246 | the deleted document's id is gone, every other document remains, ids stay unique |
| Server.SerializeVisitors | app.py:290-292 | every ranking row with its id stringified, in order |
| Server.PatientStore.constructor | app.py:23-26 | an empty store satisfies the store invariant |
| Server.PatientStore.Register | app.py:70-85 | the answer is the register decision; the user is stored exactly when accepted |
| Server.PatientStore.Login | app.py:87-101 | 200 with the token iff the login decision accepts; its status and message otherwise |
| Server.PatientStore.GetPatients | app.py:106-117 | behind the staff gate, 200 with every document serialised in order |
| Server.PatientStore.ListPatients | app.py:113-116 | the loop builds the serialised list |
| Server.PatientStore.GetPatient | app.py:120-132 | behind the staff gate, the get decision |
| Server.PatientStore.AddPatient | app.py:136-196 | behind the staff gate, the add decision: 201 with exactly one document appended with a fresh ObjectId, or the error with nothing stored; the invariant is kept |
| Server.PatientStore.UpdatePatient | app.py:199-229 | behind the staff gate, the update decision: 200 with the one updated document replacing the old, or the error with nothing changed; the invariant is kept |
| Server.PatientStore.DeletePatient | app.py:231-251 | behind the doctor/admin gate, the delete decision: 200 with exactly that document removed, or 400/404 with nothing changed |
| Server.PatientStore.DistributionRoute | app.py:255-274 | behind the doctor/admin gate, 200 with the distribution of the chosen field |
| Server.PatientStore.FrequentVisitorsRoute | app.py:276-294 | behind the doctor/admin gate, 200 with the ranking, ids stringified |
| Server.PatientStore.StringifyIds | app.py:290-292 | the loop rewrites every row's `_id` as its hex string |
| EndToEnd.ValidFormIsAdded | app.py:186-194 | a form that every live validator accepts, submitted in create mode, is a POST whose body add_patient inserts |
| EndToEnd.EditThenSaveIsNoOp | static/dashboard.js:324-393 | opening a listed record and saving it unchanged updates that very document to itself |
| EndToEnd.SavedFormChangesNothing | app.py:205-223 | the update set built from an unchanged edit form leaves the document as it was |
| EndToEnd.SumOfCounts | static/dashboard.js:436-452 | the chart's data sums to the groups' total count |
| EndToEnd.DistributionChartTotal | static/dashboard.js:436-452 | a distribution pie's slices sum to the number of patients, with labels in ascending order |

## Left out

- The browser presentation is not modelled: message animation, field-error CSS classes, `scrollTo`, the Chart.js colours, scales and legend, and the canvas lookup. The pie/bar choice is modelled.
- The concurrent chart loads under `Promise.all`, and the spinner toggling across them, are not modelled. Neither are the unawaited `loadPatients`/`loadAllCharts` calls after a save or a delete, or the `setTimeout` redirects, which are recorded as "scheduled". The model is sequential.
- The read-max-then-insert race in `add_patient` under concurrent requests is left out, because the store is sequential.
- `fetch` and `response.json` are left out. The server's answer is a parameter: a status with a `msg`, or a network error. A non-JSON error body, which would make `response.json()` throw a different message, is not modelled.
- JWT signing, verification and expiry are left out. A route receives the verified token. The user lookup and the role gate are modelled.
- Werkzeug password hashing is an ideal hash: the salt is an input, and the check accepts exactly the original password.
- `datetime.now()` is the `now` parameter of `AddPatient`. Log output (`print`, `console.log`) is left out.
- `static/login.js` and the `__main__` seeding of the default users are not part of this model.
- `Text.ToLower` lower-cases ASCII letters only; JavaScript's full Unicode case mapping is not modelled.
- `PatientIds.IsPNumber`: the PCRE `$` also matches before a final newline; the model does not accept "P12\n".
- `Server.InvalidIdReason` writes Python's `repr` as the string in single quotes, without repr's escaping or quote choice.
- Only ObjectIds within twelve bytes round-trip through their hex string (`ObjectIds.ParseToHex` requires it). The counter that allocates them is unbounded.
- Stored documents keep a missing key and a `null` value alike (`None`). A JSON value of an unexpected type is not modelled: a non-string name, a non-array list, a non-object body. Ages are integers; JavaScript numbers as floating point are not modelled.
- The gender `<select>` is taken to offer only its listed values; a value outside them is just a string to the model.
- `delete_patient`'s 500 branch for an exception from the database driver is left out. The database engine itself is not modelled.
- `Analytics.SortByCount` keeps rows with equal visit counts in collection order. MongoDB leaves the order of ties unspecified; `Analytics.RankingCorrect` proves the ranking properties for every order of ties, so the model's choice matters only for which of several equal rows a cut at ten keeps.
- Dashboard.EditInputs: a stored record without a name or department key would show the text "undefined" in that input, since the browser writes undefined as that word; the model shows an empty input for a missing and a null value alike.
