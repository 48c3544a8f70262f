# Waste-Management-System in Dafny

A verified model of the core of a skip-hire waste management back end and its front-end helpers.

A **skip** is a container identified by a QR code. It is delivered empty to a customer's site
(a *zone*), possibly relocated, collected full, weighed, and returned empty. Each step is a
driver command. A command appends a **movement** and keeps a **placement** ledger in which each skip
has at most one open placement. A collection also writes a **weight**, a **transfer** and a **waste
transfer note** (WTN), the legal document of the transfer, which can be rendered as HTML or PDF.

Around this lifecycle the model covers:

- the admin skip registry: admin-key guards, QR deep links, label assets, seeding and creation;
- the demo and development skip helpers;
- contractor ownership of skips, through assignment rows opened and closed like placements;
- the driver's tasks and the job queue;
- the API-key middleware, the database URL normaliser and the debug settings summary;
- the WTN document endpoint and form context;
- the front end's helpers: the API client, the toast queue, the note link, the QR scanner's
  duplicate filter, the developer console's stored settings and settings card, and the helpers
  of the operator console.

Each back-end command is specified by a function from the tables before the call (a value of
`Store.Tables`) and the request to the tables after it and the response. Where the source changes
state, a class (`Store.SkipDb`, `Toasts.ToastCenter`, `Scanner.ScannerState`, `ConfigCard.Card`,
`DevConfig.DevStore`, …) carries the command out step by step, and its `ensures` ties the new
state to that function. Lemmas then relate commands to each other: the whole lifecycle of one skip,
collecting twice, round trips of stored settings, and similar.

Clocks, generated ids, random numbers, `str()` of numbers, `strftime` and number formatting
are parameters. Request and response bodies are JSON values (`Json.Json`). Strings are
`seq<char>`, and only ASCII white space and ASCII letters are treated specially.

Where the code and the intended behaviour differ, the model follows the code and gives the
corrected behaviour beside it (see "## Findings").

## Model

| member | source | states |
|---|---|---|
| Driver.StrAt | backend/app/api/driver.py:61-63 | a key yields a value only when it holds a string with non-blank content, and the value is that string stripped, never empty |
| Driver.GetStr | backend/app/api/driver.py:58-64 | nothing exactly when no listed key yields a string; otherwise the value of the first key that does, every earlier key yielding nothing |
| Driver.GetNum | backend/app/api/driver.py:66-73 | nothing exactly when no listed key holds a convertible number (None and "" are skipped); otherwise the number of the first key that does |
| Driver.CalcNet | backend/app/api/driver.py:153-160 | an explicit net wins; otherwise gross minus tare when both are known; otherwise nothing |
| Driver.Latest | backend/app/api/driver.py:124-131 | the index of an eligible placement whose placed time is no earlier than any other eligible one, and nothing exactly when no placement is eligible |
| Driver.ActiveZone | backend/app/api/driver.py:112-131 | with the placement model, an active placement exists exactly when the skip has an open placement; without it, exactly when the skip's own zone is set and non-empty |
| Driver.CloseAll | backend/app/api/driver.py:133-144 | the ledger keeps its length; afterwards the skip has no open placement, and every row that was not an open placement of the skip is unchanged |
| Driver.SafePlaceSpec | backend/app/api/driver.py:162-176 | closes every open placement of the skip and opens one new placement at a non-empty target zone with the given id and time; sets the skip's zone; deployed after delivery or return, in transit after collection, status kept after relocation; no other skip changes |
| Driver.SafePlaceConsistent | backend/app/api/driver.py:162-176 | codes stay unique and no skip ends with two open placements |
| Driver.Scan | backend/app/api/driver.py:179-189 | the code is ?qr=, else ?q=, else the body's qr/q; 400 "qr is required" exactly when there is none; 404 exactly when no skip has it; otherwise the skip's id, code, status and zone |
| Driver.EmptyMoveSpec | backend/app/api/driver.py:191-229 | 400 exactly when the skip code or the zone is missing, 404 exactly when the code is unknown, and no change on an error; on success one movement for the skip, from its current zone for a relocation and from nowhere otherwise, followed by the placement |
| Driver.ReturnEmptySpec | backend/app/api/driver.py:301-348 | an error changes nothing; a success reports status "deployed" at the posted zone, and no placement without the placement model |
| Driver.CollectWeight | backend/app/api/driver.py:256-265 | gross and tare are the first convertible readings of their keys; the net is the explicit net, else gross minus tare, else 0.0 |
| Driver.CollectFullSpec | backend/app/api/driver.py:231-299 | 400 exactly when the skip code is missing; 404 exactly when it is unknown; 400 "skip not deployed on a site" exactly when the skip has no active placement; success otherwise; no change on any error |
| Driver.CollectFullRecords | backend/app/api/driver.py:242-299 | a success appends one movement from the active zone to nowhere, leaves the skip in transit with no zone and no open placement, and appends exactly one weight, transfer and note, each linked to the one before; the note's quantity is the stored net, and the response names the note and its PDF path |
| Driver.EmptyMoveConsistent | backend/app/api/driver.py:191-229 | deliver, relocate and return keep codes unique and every skip with at most one open placement |
| Driver.CollectFullConsistent | backend/app/api/driver.py:231-299 | a collection keeps codes unique and every skip with at most one open placement |
| Driver.LatestIsNewest | backend/app/api/driver.py:332-338 | an eligible row placed strictly later than every other eligible row is the one the newest-first lookup returns, whatever order ties among the others take |
| Driver.SafePlaceLatest | backend/app/api/driver.py:328-338 | when every placement was stamped before the command's time, the skip's newest placement after the command is the one it just opened, the only one with the greatest placed time |
| Driver.ReturnEmptyNamesNewPlacement | backend/app/api/driver.py:328-340 | with the placement model, when every placement was stamped before the command's time, return-empty reports the id of the placement it just opened |
| Driver.CloseAllActivePlacements | backend/app/api/driver.py:133-144 | the loop over the placements leaves exactly the ledger CloseAll describes, or the ledger unchanged without the placement model; no other table changes |
| Driver.OpenPlacement | backend/app/api/driver.py:146-151 | appends the new open placement only when the model exists and the zone is non-empty; no other table changes |
| Driver.SafePlace | backend/app/api/driver.py:162-176 | the database afterwards is exactly SafePlaceSpec of the database before |
| Driver.MoveEmpty | backend/app/api/driver.py:193-207 | the database and the response are exactly EmptyMoveSpec of the database before |
| Driver.DeliverEmpty | backend/app/api/driver.py:191-209 | the database and the response are exactly those of the deliver-empty specification |
| Driver.RelocateEmpty | backend/app/api/driver.py:211-229 | the database and the response are exactly those of the relocate-empty specification |
| Driver.CollectFull | backend/app/api/driver.py:231-299 | the database and the response are exactly CollectFullSpec of the database before |
| Driver.CollectPlacedSkip | backend/app/api/driver.py:242-299 | the writes of a collection once the skip is known to be placed agree with the specification |
| Driver.RecordCollection | backend/app/api/driver.py:256-299 | appends the weight, the transfer and the note and nothing else, and answers with the movement, the net, the transfer, the note id and "/wtn/<id>.pdf" |
| Driver.ReturnResponse | backend/app/api/driver.py:328-348 | an error is passed through; a success names the movement, the skip, the zone, the newest placement of the skip in the session (none without the model) and the skip's status |
| Driver.ReturnEmptyAsWritten | backend/app/api/driver.py:301-348 | answers as the return-empty specification does, and changes nothing in the database, because the session is never committed |
| Driver.ReturnEmptyCommitted | backend/app/api/driver.py:301-348 | with a commit added, the database and the response are exactly ReturnEmptySpec of the database before |
| DriverModel.FindMember | backend/app/api/driver.py:78-80 | something is found exactly when some member's lower-cased name or lower-cased value equals the text, and it is the first such member |
| DriverModel.ParseEnum | backend/app/api/driver.py:75-81 | a missing value gives the default; a stripped, lower-cased text that matches a member's lower-cased name or value gives such a member, and one that matches none gives the default |
| DriverModel.ParseEnumNotFound | backend/app/api/driver.py:78-81 | a value whose stripped text names no member takes the default |
| DriverProps.GetNumFirst | backend/app/api/driver.py:68-71 | the number reader answers with its first key whenever that key holds a convertible value |
| DriverProps.GetStrAbsent | backend/app/api/driver.py:58-64 | the string reader answers with nothing when none of its keys is in the body |
| DriverProps.GetNumAbsent | backend/app/api/driver.py:66-73 | the number reader answers with nothing when none of its keys is in the body |
| DriverProps.ParseEnumAbsent | backend/app/api/driver.py:263 | an enumeration field missing from the body becomes "" and takes the default, for any member list in which no name or value is empty |
| DriverProps.TransferDefaults | backend/app/api/driver.py:268-275 | a collection body without site, commodity, destination or address gives site "SITE-DEV", commodity "COM-DEV", destination type RECYCLING named "ECO MRF" and no address, provided no destination type has an empty name or value |
| DriverProps.MissingWeightsGiveZero | backend/app/api/driver.py:256-264 | with no weight keys, gross and tare are missing and the stored net is 0.0, never missing |
| DriverProps.NetIsNotClamped | backend/app/api/driver.py:153-160 | with gross and tare and no explicit net, the stored net is gross minus tare, negative when the tare is larger |
| DriverProps.NetOfGrossAndTare | backend/app/api/driver.py:256-259 | for any first gross key and first tare key holding numbers and no net key, the net is their difference |
| DriverProps.TransferFallsBackToRecycling | backend/app/api/driver.py:272 | if no destination type has the name or value "transfer" (in lower case), the text "TRANSFER" takes the default and is recorded as RECYCLING |
| DriverProps.TransferNamesMember | backend/app/api/driver.py:272 | if some destination type has the name or value "transfer", the text "TRANSFER" is recorded as the first such member |
| DriverProps.TransferText | backend/app/api/driver.py:78 | "TRANSFER" needs no stripping and lower-cases to "transfer" |
| DriverProps.ParseEnumIgnoresCaseAndPadding | backend/app/api/driver.py:75-81 | two texts that agree once stripped and lower-cased give the same member |
| DriverProps.SafePlaceActiveZone | backend/app/api/driver.py:162-176 | after placing, the skip's active zone is the target when that is non-empty and there is none otherwise, with or without the placement model |
| DriverProps.SafePlacePlacedBy | backend/app/api/driver.py:162-166 | placing at time `when` keeps every placement placed no later than any later time |
| DriverProps.SafePlaceKeepsCodes | backend/app/api/driver.py:162-176 | placing never changes which row a code lookup finds |
| DriverProps.CollectTwiceRejected | backend/app/api/driver.py:237-240 | after a successful collection, a second collection of the same skip is refused with 400 "skip not deployed on a site" |
| DriverProps.EmptyMoveStep | backend/app/api/driver.py:191-229 | an empty-skip command naming a known skip and a zone succeeds, sets the skip's zone and status, makes that zone its active placement and keeps every code |
| DriverProps.CollectStep | backend/app/api/driver.py:231-299 | a collection of a placed skip succeeds, records a movement from its active zone, leaves it in transit with no active placement and keeps every code |
| DriverProps.DeliverThenRelocate | backend/app/api/driver.py:191-229 | after a delivery the skip is deployed, and a following relocation starts from the delivery's zone |
| DriverProps.CollectThenReturn | backend/app/api/driver.py:231-348 | collecting a placed skip and then returning it, with the return committed as intended (see "## Findings"), leaves the skip deployed at the return zone, which is its active placement |
| DriverProps.Lifecycle | backend/app/api/driver.py:191-348 | with the return committed as intended (see "## Findings"), deliver, relocate, collect, return all succeed in turn; each step starts where the previous one left the skip; the skip ends deployed at the return zone with that zone as its active placement |
| DriverProps.ReturnEmptyAsWrittenLosesState | backend/app/api/driver.py:301-348 | as written, a successful return-empty reports "deployed" while the database keeps the skip's old status and zone, so a later scan disagrees with the response |
| DriverProps.ReturnEmptyCommittedPersists | backend/app/api/driver.py:301-348 | with the commit, a scan after return-empty reports the skip deployed at the return zone |
| Store.FindByQr | backend/app/api/driver.py:83-87 | the index found holds the code and no earlier row does; nothing is found exactly when no row holds the code |
| Store.FindById | backend/app/models/skip.py:28 | the index found holds the id; nothing is found exactly when no row holds it |
| Store.FindByQrUnique | backend/app/models/skip.py:29 | under the unique code column, the lookup finds the one skip carrying the code |
| Store.FindByQrSameCodes | backend/app/api/driver.py:83-87 | the lookup depends only on the codes, so updates that keep every code keep every lookup |
| Store.FindByQrAppended | backend/app/api/driver.py:83-87 | a skip appended with a code no row has is the row the lookup then finds |
| Store.AppendFreshSkip | backend/app/models/skip.py:28-29 | appending a skip whose code and id are both new keeps codes and ids unique |
| Store.SkipDb.constructor | backend/app/api/driver.py:89-110 | an empty database that has or lacks the placement model |
| SkipModel.StatusOf | backend/app/models/skip.py:18-22 | a status found for a string stores exactly that string |
| SkipModel.StatusValuesExact | backend/app/models/skip.py:18-22 | a string names a status exactly when it is one of "in_stock", "deployed", "in_transit", "processing", and every status is found from its stored string |
| SkipModel.StatusValueInjective | backend/app/models/skip.py:18-22 | distinct statuses are stored as distinct strings |
| SkipModel.NewSkip | backend/app/models/skip.py:28-38 | a skip made from a code alone has the given id and code, status "in_stock", no zone, no owner, not deleted, and both time stamps at creation |
| SkipsApi.ExpectedAdminKey | backend/app/api/skips.py:112-114 | the ADMIN_API_KEY setting when it is set, else SEED_API_KEY; a key is configured exactly when one of the two is |
| SkipsApi.AdminKeyOk | backend/app/api/skips.py:117-120 | accepted exactly when a key is configured and the X-API-Key header equals it; otherwise 401 "Not authenticated" |
| SkipsApi.AdminKeyOkQ | backend/app/api/skips.py:123-134 | refusals are 401 "Not authenticated", and nothing is accepted without a configured key |
| SkipsApi.QueryGuardEitherChannel | backend/app/api/skips.py:123-134 | the query-string guard accepts exactly when the header guard would accept the header or the ?key= value |
| SkipsApi.QrDeeplink | backend/app/api/skips.py:140-144 | the bare code without a base; otherwise the base without its trailing slashes, then "/driver/qr/", then the code |
| SkipsApi.QrDeeplinkTrailingSlash | backend/app/api/skips.py:143 | an extra trailing slash on the base does not change the deep link |
| SkipsApi.ToInt | backend/app/api/skips.py:147-153 | nothing for a missing value; a text is stripped and then parsed as a decimal integer |
| SkipsApi.ToIntOfNumber | backend/app/api/skips.py:147-153 | an integer converts to itself |
| SkipsApi.ToIntOfPaddedText | backend/app/api/skips.py:147-153 | the decimal text of an integer, padded with white space, converts to that integer |
| SkipsApi.LabelRows | backend/app/api/skips.py:175-194 | four rows for the skip with the given ids: PNG labels 1, 2, 3 with content type image/png, then the PDF with no index and content type application/pdf |
| SkipsApi.LabelRowsPdfCount | backend/app/api/skips.py:186-194 | the label rows hold exactly one PDF for their own skip and none for any other |
| SkipsApi.LabelAssetsSpec | backend/app/api/skips.py:156-195 | with one PDF nothing changes; the table only ever grows at its end; with no PDF and ids supplied, the four label rows are appended |
| SkipsApi.LabelAssetsOnce | backend/app/api/skips.py:156-168 | after the labels are ensured the skip has exactly one PDF, and ensuring them again changes nothing |
| SkipsApi.LabelAssetsOtherSkips | backend/app/api/skips.py:156-195 | ensuring one skip's labels leaves every other skip's PDF count unchanged |
| SkipsApi.AddLabelRows | backend/app/api/skips.py:175-195 | the loop over the three PNG labels, then the PDF, appends exactly the label rows and changes nothing else |
| SkipsApi.EnsureLabelAssets | backend/app/api/skips.py:156-195 | succeeds exactly when the specification does, and the asset table is then the specified one; otherwise nothing changes |
| SkipsApi.SeedQr | backend/app/api/skips.py:265 | the stripped qr_code when it is non-empty, else the stripped qr when that is non-empty, else "" |
| SkipsApi.FirstOrgNamed | backend/app/api/skips.py:276-278 | the first organisation with the name, none exactly when no organisation has it |
| SkipsApi.FindOrgByName | backend/app/api/skips.py:276-279 | nothing exactly when no organisation has the name; a 500 exactly when two have it (`scalar_one_or_none` raises); otherwise the one organisation with the name |
| SkipsApi.FindOrgById | backend/app/api/skips.py:345-349 | an organisation found has the id; nothing is found only when no organisation has it |
| SkipsApi.ResolveOwner | backend/app/api/skips.py:272-286 | the only failures are 404 "Owner org not found" and the 500 of a name two organisations share, and only with the organisation table present and a name given; a non-blank owner id is used stripped, with the given name or "OWNER" on the labels; without the table nothing fails |
| SkipsApi.SeededSkip | backend/app/api/skips.py:297-306 | the new skip has the given id, the seed code and the owner, status "in_stock", and is not deleted |
| SkipsApi.SeedSkip | backend/app/api/skips.py:258-326 | the database and the response are exactly the seed specification's |
| SkipsApi.SeedExistingCreatesNoSkip | backend/app/api/skips.py:288-295 | seeding an existing code returns that skip, leaves the skip table as it was, and leaves the skip with exactly one labels PDF |
| SkipsApi.SeedSkipIdempotent | backend/app/api/skips.py:288-295 | a second seed with the same body returns the same answer and changes nothing |
| SkipsApi.SeedSkipConsistent | backend/app/api/skips.py:258-326 | a seed keeps codes and ids unique and the ledgers consistent when the new id is fresh |
| SkipsApi.SeedNewSkipAsWrittenFails | backend/app/api/skips.py:316-324 | as written, seeding a new code always ends in 500 "seed_failed" and changes nothing |
| SkipsApi.SeedNewSkipInserts | backend/app/api/skips.py:297-326 | with row ids supplied, seeding a new code inserts the skip, finds it under its code, and appends exactly its four label rows |
| SkipsApi.CreateCode | backend/app/api/skips.py:355 | the given code when it is non-empty; otherwise "SK-" followed by eight upper-case hexadecimal digits |
| SkipsApi.CreatedSkip | backend/app/api/skips.py:362-377 | the inserted row has the code, the owner, the zone and the commodity of the payload, status "in_stock", and the user id (none when empty) as creator and updater |
| SkipsApi.CreateSkip | backend/app/api/skips.py:332-416 | the database and the response are exactly the create specification's |
| SkipsApi.CreateSkipRejectsDuplicate | backend/app/api/skips.py:354-360 | creating a code already taken is refused with 409 "qr_code already exists" and changes nothing |
| SkipsApi.CreateSkipLabels | backend/app/api/skips.py:378-416 | a created skip is found under its code, has exactly one labels PDF, and the response lists three PNG URLs and the PDF URL of the new id |
| SkipsApi.CreateSkipConsistent | backend/app/api/skips.py:332-416 | a create keeps codes and ids unique and the ledgers consistent when the new id is fresh |
| SkipsDemo.RequireAdmin | backend/app/api/skips_demo.py:18-23 | accepted exactly when a non-empty header literally named `x_admin_key` (underscores are not converted, so `X-Admin-Key` is not read and leaves the header missing) equals the admin key; a missing or empty header and a different key are 401 "bad admin key"; a set header with no admin key setting raises (500) |
| SkipsDemo.DemoQr | backend/app/api/skips_demo.py:31 | a missing qr_code is ""; a string is stripped; any other value has no strip and raises (500) |
| SkipsDemo.DemoCreate | backend/app/api/skips_demo.py:25-50 | the database and the response are exactly the create specification's |
| SkipsDemo.DemoCreateBlankRejected | backend/app/api/skips_demo.py:31-33 | a code that is blank after stripping is refused with 400 "qr_code required" and changes nothing |
| SkipsDemo.DemoCreateIdempotent | backend/app/api/skips_demo.py:35-43 | creating the same code again returns the same answer and changes nothing, whatever id and time a second insert would use |
| SkipsDemo.DemoCreateNewInStock | backend/app/api/skips_demo.py:38-40 | a create that inserts appends exactly one skip, in stock, not deleted, placed nowhere, with the new id |
| SkipsDemo.ClampLimit | backend/app/api/skips_demo.py:57 | the limit is always between 1 and 200, kept when already inside, 1 below and 200 above |
| SkipsDemo.SortNewestFirst | backend/app/api/skips_demo.py:59 | a permutation of the skips in which creation times never increase |
| SkipsDemo.ListSkips | backend/app/api/skips_demo.py:52-71 | refused exactly when the admin guard refuses; otherwise the clamped limit or all skips, whichever is fewer, newest first; with no `limit` in the query, the limit is 20 |
| SkipsDemo.ListSkipsIsNewest | backend/app/api/skips_demo.py:57-71 | the listing is the top of the newest-first order: listed and left-out skips make up the whole table, and no skip left out is newer than a listed one |
| SkipsDemo.GetByQr | backend/app/api/skips_demo.py:73-85 | a refusal of the admin guard is answered with its code and detail; past the guard, 404 "not found" when no skip has the code, and otherwise the row of the first skip with the code, deleted or not |
| SkipsDemo.DeleteSkip | backend/app/api/skips_demo.py:87-96 | the database and the response are exactly the delete specification's |
| SkipsDemo.DeleteUnknownChangesNothing | backend/app/api/skips_demo.py:91-93 | deleting an unknown id answers ok with deleted false and changes nothing |
| SkipsDemo.SoftDeleteStamps | backend/app/api/skips_demo.py:94-96 | deleting a known skip stamps its deleted_at with the time of the call, answers deleted true with the id, and changes no other row |
| SkipsDemo.SoftDeleteStillVisible | backend/app/api/skips_demo.py:73-96 | after a soft delete the lookup by code and the listing show exactly what they showed before |
| BinAssignments.FindOpen | backend/app/api/admin_bin_assignments.py:24-26 | the index found is an open assignment of the skip and no earlier row is; nothing exactly when the skip has no open assignment |
| BinAssignments.ActiveAssignment | backend/app/api/admin_bin_assignments.py:24-27 | none exactly when the skip has no open assignment; otherwise the one open assignment; a raise (500) only when the skip has two open assignments |
| BinAssignments.ActiveAssignmentUnique | backend/app/api/admin_bin_assignments.py:27 | when every skip has at most one open assignment, the lookup never raises |
| BinAssignments.FindContractor | backend/app/api/admin_bin_assignments.py:19-20 | the index found holds the contractor id; nothing exactly when no contractor has it |
| BinAssignments.AssignTarget | backend/app/api/admin_bin_assignments.py:15-27 | 404 "skip not found" for an unknown code, then 404 "contractor not found" for an unknown contractor; otherwise the skip, the contractor and the skip's open assignment |
| BinAssignments.NewLink | backend/app/api/admin_bin_assignments.py:31 | the new assignment has the given id, is open, belongs to the skip and the contractor, and is assigned at the time of the call |
| BinAssignments.AssignBin | backend/app/api/admin_bin_assignments.py:13-35 | the database and the response are exactly those of the intended assignment |
| BinAssignments.AssignBinOnlyOpen | backend/app/api/admin_bin_assignments.py:23-33 | after an assignment the new link is the skip's only open assignment, and every link of the skip that was open is closed at the time of the call |
| BinAssignments.AssignBinRejectsUnknown | backend/app/api/admin_bin_assignments.py:15-22 | an unknown skip or contractor is refused with 404 and nothing changes |
| BinAssignments.AssignBinConsistent | backend/app/api/admin_bin_assignments.py:13-35 | assigning keeps every skip to at most one open assignment |
| BinAssignments.AssignOwnedAsWrittenFails | backend/app/api/admin_bin_assignments.py:28-29 | as written, assigning a skip that already has an owner raises (500) and changes nothing, where the intended handler succeeds |
| BinAssignments.AssignFreeAsWrittenAgrees | backend/app/api/admin_bin_assignments.py:13-35 | for an unknown skip or contractor, or a skip nobody owns, the handler as written and the intended one agree |
| BinAssignments.UnassignBin | backend/app/api/admin_bin_assignments.py:37-52 | the database and the response are exactly the unassignment specification's |
| BinAssignments.UnassignLeavesNoneOpen | backend/app/api/admin_bin_assignments.py:43-51 | after an unassignment the skip has no open assignment and no other row changed |
| BinAssignments.UnassignWithoutOwner | backend/app/api/admin_bin_assignments.py:46-48 | with no open assignment, unassigning is 404 "no active assignment" and changes nothing |
| BinAssignments.UnassignBinConsistent | backend/app/api/admin_bin_assignments.py:37-52 | unassigning keeps every skip to at most one open assignment |
| BinAssignments.FirstOpenJoined | backend/app/api/admin_bin_assignments.py:60-63 | a row found is an open assignment of the skip with its contractor; nothing exactly when no open assignment of the skip has a contractor |
| BinAssignments.GetCurrentOwner | backend/app/api/admin_bin_assignments.py:54-71 | 404 "skip not found" exactly when the code is unknown; a known code is answered with its skip's id, and an owner exactly when an open assignment of the skip joins a contractor, that contractor and that assignment's time being reported; with no owner there is no assignment time and no open assignment joins a contractor |
| BinAssignments.FirstOpenJoinedOnly | backend/app/api/admin_bin_assignments.py:60-63 | the only open assignment of the skip, with its contractor, is the row the join returns |
| BinAssignments.AssignThenCurrent | backend/app/api/admin_bin_assignments.py:13-71 | right after an assignment the current owner is the contractor just assigned, assigned at the time of the call |
| BinAssignments.UnassignThenNoOwner | backend/app/api/admin_bin_assignments.py:37-71 | after an unassignment the skip has no current owner |
| DevApi.EnsureQr | backend/app/api/dev.py:56-63 | the query code when it is non-empty, else the body's qr when it is truthy, else "QRDEV-001", stripped after the choice; a truthy body qr that is not a string raises (500) |
| DevApi.DefaultDevQrTrimmed | backend/app/api/dev.py:63 | the default code "QRDEV-001" needs no stripping |
| DevApi.BlankQueryGivesEmptyCode | backend/app/api/dev.py:63 | a white-space-only query code is chosen over the body and the default, and strips to "" |
| DevApi.EnsureSkipBadBodyCode | backend/app/api/dev.py:56-63 | without a query code, a truthy body qr that is not a string is a 500 and nothing is inserted |
| DevApi.EnsureSkip | backend/app/api/dev.py:47-74 | the database and the response are exactly the ensure-skip specification's, a 500 for a truthy non-string body qr included |
| DevApi.EnsureSkipExisting | backend/app/api/dev.py:66-74 | under unique codes, an existing skip is returned with its id, code and status, and nothing changes |
| DevApi.EnsureSkipIdempotent | backend/app/api/dev.py:66-74 | repeating ensure-skip with the same code returns the same skip and changes nothing, whatever id a second insert would use |
| DevApi.EnsureSkipConsistent | backend/app/api/dev.py:47-74 | ensure-skip keeps codes and ids unique and the ledgers consistent when the new id is fresh |
| DevApi.DevSeedGuard | backend/app/api/dev.py:87-93 | passes exactly when the X-Dev-Secret header equals JWT_SECRET and the code is new; 401 "Not authenticated" for a wrong secret, checked first; 409 "qr_code already exists" for a taken code |
| DevApi.DevSeedSkip | backend/app/api/dev.py:77-104 | the database and the response are exactly the intended seed's |
| DevApi.DevSeedAsWrittenNeverInserts | backend/app/api/dev.py:95-100 | as written the endpoint never succeeds and never changes the tables; past the guards it always fails with 500 |
| DevApi.DevSeedIntendedInsertsOnce | backend/app/api/dev.py:91-104 | the intended seed inserts a skip that the code then finds, so a second seed of the same code is refused with 409 |
| DevApi.DevSeedGuardsShared | backend/app/api/dev.py:87-93 | a refused seed is refused in the same way by both versions |
| WtnApi.Esc | backend/app/api/wtn.py:28-37 | a missing text gives ""; the result never holds a raw <, >, " or ', and every & in it begins an entity |
| WtnApi.EscIsReplaceChain | backend/app/api/wtn.py:31-37 | the source's five chained replacements, & first, compute exactly the escape of each character on its own |
| WtnApi.ChainOneChar | backend/app/api/wtn.py:31-37 | on one character the chain gives that character's entity: no later replacement rewrites an earlier one's output |
| WtnApi.ChainIsEscapeEach | backend/app/api/wtn.py:31-37 | the chain distributes over concatenation, so it equals escaping each character independently |
| WtnApi.EscapeEachSafe | backend/app/api/wtn.py:28-37 | escaped text holds none of < > " ' and every & in it begins an entity |
| WtnApi.UnescapeEsc | backend/app/api/wtn.py:28-37 | reading the entities back recovers the original text: escaping loses nothing |
| WtnApi.EscapePlain | backend/app/api/wtn.py:31-37 | text without &, <, >, " or ' is left as it is |
| WtnApi.FmtDt | backend/app/api/wtn.py:40-43 | no date gives ""; a date gives its formatted text |
| WtnApi.CtxFromWtn | backend/app/api/wtn.py:221-243 | the note's id and transfer id; the quantity as its two-decimal text followed by " kg", "" without a quantity; every signature, id and telephone placeholder empty |
| WtnApi.CtxDatesAgree | backend/app/api/wtn.py:227-242 | the created, loaded and received dates all show the note's creation time |
| WtnApi.CtxWasteFallbacks | backend/app/api/wtn.py:229-232 | a missing or empty description or EWC code shows "MIXED WASTE" and "APPROVED METHOD" |
| WtnApi.CtxSiteFallbacks | backend/app/api/wtn.py:230-231 | a missing or empty producer or destination name shows "ORIGINATOR SITE" and "APPROVED LOCATION" |
| WtnApi.CtxCarrierFallbacks | backend/app/api/wtn.py:234-235 | a missing or empty carrier name shows "CARRIER CO." as the company and "Driver" as the person |
| WtnApi.CtxCarrierShared | backend/app/api/wtn.py:234-235 | a stored carrier name fills both carrier fields, escaped |
| WtnApi.FindNote | backend/app/api/wtn.py:256 | the index found holds the id; nothing exactly when no note has it |
| WtnApi.GetWtnDocument | backend/app/api/wtn.py:246-279 | 422 for a format other than pdf or html; 404 "WTN not found" for an unknown note; a known note with a valid format is always answered, as a PDF or HTML document named `wtn-<id>.pdf` or `wtn-<id>.html` after its kind, with the note's context, a PDF exactly when pdf is asked for and an engine is installed, and an attachment exactly when one is asked for; a missing `format` means "pdf" and a missing `as_attachment` means inline |
| WtnApi.DocumentDefaults | backend/app/api/wtn.py:246-279 | a request with neither `format` nor `as_attachment` for a known note succeeds inline: a PDF named `wtn-<id>.pdf` with an engine, the HTML page named `wtn-<id>.html` without one |
| WtnService.CtxGet | backend/app/services/wtn.py:95-96 | a missing key gives the default; a present falsy value gives ""; a present string is itself |
| WtnService.CtxGetDefaultOnlyWhenAbsent | backend/app/services/wtn.py:95-96 | a present string other than the default never reads as the default: the default applies to a missing key only |
| WtnService.Part | backend/app/services/wtn.py:100-102 | a missing or falsy part is an empty dict; an object part is its members |
| WtnService.BuildCtxForm | backend/app/services/wtn.py:98-134 | fails exactly when some part is truthy and not an object; part 1 carries the payload's wtn_number and wtn_id |
| WtnService.BuildEmptyPayload | backend/app/services/wtn.py:98-134 | without any parts every field is empty except the two dates, which are the generation time |
| WtnService.BuildNullParts | backend/app/services/wtn.py:100-102 | null parts read as empty ones: both dates are the generation time and the receiver's quantity is empty |
| WtnService.Part3QuantityFallback | backend/app/services/wtn.py:127 | the receiver's quantity is part 3's when it has one, else the originator's |
| WtnService.DatesShareNow | backend/app/services/wtn.py:99-128 | both dates default to the one generation time when the parts leave them out |
| WtnService.EmptyDateNotDefaulted | backend/app/services/wtn.py:109 | a part's empty date_time is kept empty: the generation time replaces only a missing one |
| WtnService.BuildRejectsTextPart | backend/app/services/wtn.py:100-102 | a part that is a non-empty string has no get, so building fails |
| DriverSchedule.TaskDb.constructor | backend/app/api/driver_schedule.py:24 | the table of tasks starts empty |
| DriverSchedule.OfDriver | backend/app/api/driver_schedule.py:24 | a task is selected exactly when it belongs to the driver |
| DriverSchedule.ScheduleQuery | backend/app/api/driver_schedule.py:24-25 | the driver's tasks, as a permutation, in ascending scheduled time |
| DriverSchedule.Kept | backend/app/api/driver_schedule.py:27-29 | a row is kept exactly when it is not skipped as done under only_pending |
| DriverSchedule.KeptSorted | backend/app/api/driver_schedule.py:24-29 | skipping done rows keeps the ascending schedule order |
| DriverSchedule.KeptAll | backend/app/api/driver_schedule.py:21-29 | without only_pending every row is listed |
| DriverSchedule.ItemsOf | backend/app/api/driver_schedule.py:30-42 | one item per kept row, in order, each the row's fields |
| DriverSchedule.ItemsOfAppend | backend/app/api/driver_schedule.py:26-42 | the item list grows by one item per appended row |
| DriverSchedule.GetSchedule | backend/app/api/driver_schedule.py:18-43 | an empty driver name is a 422; otherwise the driver's kept rows as items; with no `only_pending` in the query, no listed item is done |
| DriverSchedule.DefaultSchedulePending | backend/app/api/driver_schedule.py:19-28 | under the default `only_pending=True` the schedule holds exactly the driver's tasks that are not done, in ascending `scheduled_at`, and no item is marked done |
| DriverSchedule.ScheduleRows | backend/app/api/driver_schedule.py:18-43 | the schedule holds exactly the driver's tasks (not done, under only_pending) in ascending scheduled time |
| DriverSchedule.FindTask | backend/app/api/driver_schedule.py:47 | the first row with the id, or none exactly when no row has it |
| DriverSchedule.MarkDone | backend/app/api/driver_schedule.py:45-54 | the table and response are those of the mark-done specification |
| DriverSchedule.MarkDoneIdempotent | backend/app/api/driver_schedule.py:50-54 | marking a task done a second time changes nothing and still answers ok |
| DriverSchedule.MarkDoneEffect | backend/app/api/driver_schedule.py:50-53 | a marked task ends done, its completion time set only if it was pending; every other row is unchanged |
| DriverSchedule.SeedTasks | backend/app/api/driver_schedule.py:63-68 | the four seeded tasks: their kinds in lifecycle order, the driver and skip code, pending, and the collection's weights and destination |
| DriverSchedule.SeedSchedule | backend/app/api/driver_schedule.py:57-71 | the four tasks are appended to the table and the response counts four; a query without `driver` seeds tasks for "Alex", and one without `qr` names the skip "QR123" |
| DriverSchedule.OfDriverConcat | backend/app/api/driver_schedule.py:24 | selecting a driver's tasks distributes over concatenated tables |
| DriverSchedule.SeededScheduleListed | backend/app/api/driver_schedule.py:24-69 | for a driver with no earlier tasks, the pending schedule after seeding holds exactly the four seeded tasks (their order is left open, as they share one scheduled time) |
| DriverSchedule.BatchListed | backend/app/api/driver_schedule.py:24-29 | pending tasks added for a driver who had none are listed exactly, in ascending scheduled time, and in the order of their times when those are distinct |
| JobsService.ParseStatus | backend/app/services/jobs_service.py:19 | a status text parses exactly when it is one of PENDING, IN_PROGRESS, DONE, FAILED |
| JobsService.JobDb.constructor | backend/app/services/jobs_service.py:16-52 | the job table starts empty |
| JobsService.WithStatus | backend/app/services/jobs_service.py:18-19 | a job passes exactly when it has the given status, or no status is given |
| JobsService.Page | backend/app/services/jobs_service.py:17 | at most limit rows starting at offset, in the same order |
| JobsService.NewestJobsFirst | backend/app/services/jobs_service.py:17 | `ORDER BY created_at DESC`: a permutation of the rows in which creation times never increase |
| JobsService.ListJobsPage | backend/app/services/jobs_service.py:16-21 | a successful answer is the newest-first filtered jobs cut at the offset to the page size |
| JobsService.ListJobs | backend/app/services/jobs_service.py:16-21 | an error exactly when a non-empty status names no job status; otherwise as many jobs as the limit and offset leave of those with the status (of all jobs when no status is given), all from the table, with the status, newest first |
| JobsService.ListJobsIsWindow | backend/app/services/jobs_service.py:16-21 | the answer is the slice from the offset, of the page size, of a newest-first permutation of exactly the jobs with the given status |
| JobsService.ListJobsDefaults | backend/app/services/jobs_service.py:16-21 | with the defaults and no status the list holds min(200, number of jobs) jobs of the table, and no job it leaves out is newer than one it lists |
| JobsService.WithStatusNone | backend/app/services/jobs_service.py:18 | no status filters nothing |
| JobsService.OpenJobs | backend/app/services/jobs_service.py:40 | a job is selected exactly when it is assigned to the driver and pending or in progress |
| JobsService.WindowThenCreatedOrders | backend/app/services/jobs_service.py:41 | window start with nulls last, then creation time, is a total preorder |
| JobsService.JobsForDriver | backend/app/services/jobs_service.py:37-43 | a permutation of the driver's open jobs, sorted by window start with nulls last, then by age |
| JobsService.JobsForDriverRows | backend/app/services/jobs_service.py:37-43 | exactly the driver's open jobs are listed, and a job with a window precedes every job without one |
| JobsService.SetAttr | backend/app/services/jobs_service.py:32 | one setattr sets its column to the value sent and leaves the id, the timestamps and every other column unchanged |
| JobsService.SetAllAppend | backend/app/services/jobs_service.py:31-32 | the setattr loop over one more entry is one more setattr |
| JobsService.SetAllOthersUnchanged | backend/app/services/jobs_service.py:31-32 | a column the update does not send keeps its value |
| JobsService.SetAllSetsColumn | backend/app/services/jobs_service.py:31-32 | a column sent once holds the value sent |
| JobsService.FindJob | backend/app/services/jobs_service.py:23-25 | the first row with the id, or none exactly when no row has it |
| JobsService.UpdateJob | backend/app/services/jobs_service.py:27-35 | the table and result are those of the update specification |
| JobsService.UpdateJobEffect | backend/app/services/jobs_service.py:27-35 | only the columns sent change, each to its value; the id and creation time stay; every other job is untouched |
| JobsService.NoNulls | backend/app/services/jobs_service.py:31-33 | without a null type or status sent, the row stays free of nulls in its non-null columns |
| JobsService.SetAllKeepsIdentity | backend/app/services/jobs_service.py:31-32 | the update never changes the id or the creation time |
| JobsService.UpdateNullStatusRejected | backend/app/services/jobs_service.py:31-33 | sending null for the status fails at the flush and leaves the table unchanged |
| JobsService.UpdateUnknownJob | backend/app/services/jobs_service.py:28-30 | an unknown id changes nothing and gives None |
| JobsService.MarkDone | backend/app/services/jobs_service.py:45-52 | the table and result are those of the mark-done specification |
| JobsService.MarkDoneIsStatusUpdate | backend/app/services/jobs_service.py:45-52 | marking done is exactly the update that sends status DONE |
| JobsService.MarkDoneLeavesDriverList | backend/app/services/jobs_service.py:37-52 | a job marked done leaves its driver's open list and no other job leaves or joins |
| ApiKey.WithSlash | backend/app/middleware_apikey.py:20 | an entry always ends up with a leading "/", and one that has it is kept as it is |
| ApiKey.NormPrefixes | backend/app/middleware_apikey.py:13-21 | exactly the non-empty entries with a leading "/", strictly increasing (sorted, no repeats); no entries give none |
| ApiKey.ApiKeyMiddleware.constructor | backend/app/middleware_apikey.py:24-39 | the header, the key's variable and the 404 flag are kept; both prefix lists are stored normalised |
| ApiKey.ApiKeyMiddleware.Dispatch | backend/app/middleware_apikey.py:41-66 | outside production every request is forwarded; a rejection is a 404 when hiding, else a 401 |
| ApiKey.ApiKeyMiddleware.AllowListWins | backend/app/middleware_apikey.py:49-52 | an allow-listed path is forwarded even when a protected prefix matches it too |
| ApiKey.ApiKeyMiddleware.ProtectedNeedsKey | backend/app/middleware_apikey.py:54-62 | a production request under a protected prefix and no allowed one passes exactly when it carries the configured, non-empty key |
| ApiKey.ApiKeyMiddleware.UnprotectedForwarded | backend/app/middleware_apikey.py:54-57 | a path under no protected prefix is forwarded |
| ApiKey.NormalizationUnique | backend/app/middleware_apikey.py:21 | the normalised list is determined by the entries alone |
| ApiKey.DefaultProtectedKept | backend/app/middleware_apikey.py:30 | the default protected list normalises to exactly "/driver" |
| DbConfig.NormalizeDbUrl | backend/app/core/config.py:6-31 | the step-by-step rewrite computes the normalised URL; a missing or empty URL gives the SQLite default |
| DbConfig.BlankGivesEmpty | backend/app/core/config.py:14-17 | a URL of white space only is not the missing case: it normalises to "" |
| DbConfig.NormalizedEmptyIff | backend/app/core/config.py:6-31 | the result is empty exactly for a non-empty URL of white space only |
| DbConfig.RewritesKeepEmptiness | backend/app/core/config.py:19-29 | the two rewriting steps give "" exactly for "" |
| DbConfig.PostgresRewritten | backend/app/core/config.py:19-29 | postgres:// becomes the async scheme with the rest kept; the result is that URL, followed by "?" or "&" and sslmode=require unless the rewritten URL already contains sslmode= |
| DbConfig.PostgresQlRewritten | backend/app/core/config.py:21-29 | postgresql:// becomes the async scheme with the rest kept; the result is that URL, followed by "?" or "&" and sslmode=require unless the rewritten URL already contains sslmode= |
| DbConfig.PostgresQlScheme | backend/app/core/config.py:21-24 | the scheme step on a postgresql:// URL gives the async scheme and the same rest |
| DbConfig.AsyncGuardRedundant | backend/app/core/config.py:23 | the test that the URL is not already async always holds where it is made |
| DbConfig.SslAppended | backend/app/core/config.py:27-29 | an async URL without sslmode= gets sslmode=require after "?", or after "&" when it already has a query |
| DbConfig.OthersOnlyStripped | backend/app/core/config.py:17-31 | any other URL, and an async one that already says sslmode=, is only stripped |
| DbConfig.SslKeepsPrefix | backend/app/core/config.py:29 | the sslmode step keeps the URL as a prefix |
| DbConfig.AsyncNotRewritten | backend/app/core/config.py:19-24 | the async scheme is neither spelling the rewrite replaces |
| DbConfig.DevDefaultFixed | backend/app/core/config.py:15 | the SQLite default is stripped and no step rewrites it |
| DbConfig.NotPostgresFixed | backend/app/core/config.py:19-29 | a trimmed URL starting with neither Postgres spelling is returned as it is |
| DbConfig.SchemeShape | backend/app/core/config.py:19-24 | a trimmed URL stays trimmed through the scheme step and either has the async scheme or is unchanged |
| DbConfig.SslShape | backend/app/core/config.py:27-29 | after the sslmode step a trimmed URL is still trimmed, no step rewrites it, and an async one mentions sslmode= |
| DbConfig.NormalizedShape | backend/app/core/config.py:6-31 | a non-empty result is stripped and is a fixed point of every step |
| DbConfig.NormalizeIdempotent | backend/app/core/config.py:6-31 | normalising a non-empty normalised URL returns it unchanged |
| DbConfig.BlankNotIdempotent | backend/app/core/config.py:14-17 | the one exception: a blank URL gives "", and "" gives the SQLite default |
| DbConfig.Settings.constructor | backend/app/core/config.py:34-46 | the URL is the environment variable when set (even to ""), else the `.env` entry, else the SQLite class default |
| DbConfig.Settings.ApplyEnvironment | backend/app/core/config.py:49 | the URL becomes the normalised environment value, or the normalised current one when that is unset or empty |
| DbConfig.EffectiveWithoutEnv | backend/app/core/config.py:34-49 | without the DATABASE_URL variable the service uses the normalised `.env` entry, or the SQLite default when `.env` has none |
| DbConfig.ImportConfig | backend/app/core/config.py:46-49 | loading the settings and then overwriting the URL at import leaves the URL whose cases the three lemmas below state: the variable when non-empty, else the `.env` entry, else the SQLite default |
| DbConfig.EnvironmentWins | backend/app/core/config.py:34-49 | a non-empty DATABASE_URL variable decides the URL, whatever `.env` says |
| DbConfig.EmptyEnvironmentHidesDotenv | backend/app/core/config.py:34-49 | a DATABASE_URL variable set to "" hides the `.env` entry, so the SQLite default is used |
| DebugSettings.Mask | backend/app/routers/admin/debug_settings.py:20-23 | a missing key masks to ""; a key over six characters shows its first two and last two around an ellipsis; a shorter one is three stars |
| DebugSettings.MaskShort | backend/app/routers/admin/debug_settings.py:20-23 | a mask has at most five characters and is empty exactly for a missing key |
| DebugSettings.MaskHidesLongKey | backend/app/routers/admin/debug_settings.py:23 | a key over six characters is never shown in full |
| DebugSettings.MaskIgnoresMiddle | backend/app/routers/admin/debug_settings.py:23 | long keys that share their two first and two last characters mask alike |
| DebugSettings.Cors | backend/app/routers/admin/debug_settings.py:28-30 | the wildcard flag is whether "*" is configured; credentials are effective only when set and without a wildcard; the effective origins are ["*"] or the list |
| DebugSettings.NoCredentialsWithWildcard | backend/app/routers/admin/debug_settings.py:27-30 | effective credentials never come with a wildcard origin |
| DebugSettings.Keys | backend/app/routers/admin/debug_settings.py:61-66 | each key is reported set exactly when non-empty, with its mask |
| DebugSettings.SetIffMasked | backend/app/routers/admin/debug_settings.py:61-66 | a key is reported set exactly when its mask is not empty |
| ApiClient.ChooseKey | frontend/src/api.ts:25-26 | the admin key wins when it is needed and set; otherwise the driver key when needed and set; otherwise the caller's header stays |
| ApiClient.AdminKeyWins | frontend/src/api.ts:23-26 | a URL that needs both keys, with both configured, is sent the admin key |
| ApiClient.KeyOnlyWhenSet | frontend/src/api.ts:21-27 | the header is either left alone or set to a configured, non-empty key |
| ApiClient.OtherPathsUntouched | frontend/src/api.ts:23-27 | a URL under no key prefix keeps the caller's header |
| ApiClient.KeyIgnoresCase | frontend/src/api.ts:21 | the key chosen depends on the URL only up to letter case |
| ApiClient.DebugRouteMissesAdminKey | frontend/src/api.ts:24-26 | a debug route never gets the admin key from the installed interceptor: it keeps the caller's header, or gets the driver key |
| ApiClient.DebugRouteGetsAdminKey | frontend/src/api.ts:70-72 | with the debug routes counted as admin routes, a debug route gets the admin key whenever one is configured |
| ApiClient.ElemTexts | frontend/src/api.ts:56 | one element text per array element |
| ApiClient.FieldOf | frontend/src/api.ts:56-57 | an item fails only when its loc is a truthy non-array; otherwise its key is non-empty and its message truthy |
| ApiClient.Entries | frontend/src/api.ts:55-58 | one entry per validation item, in order |
| ApiClient.CollectNoneStays | frontend/src/api.ts:55-58 | once an item has thrown, the items after it do not matter |
| ApiClient.As422 | frontend/src/api.ts:52-62 | the loop computes the field map of the detail array, and an empty map when detail is not an array |
| ApiClient.CollectDefined | frontend/src/api.ts:55-58 | the map exists exactly when no item throws |
| ApiClient.CollectKeys | frontend/src/api.ts:58 | the map's keys are exactly the items' keys |
| ApiClient.CollectLastWins | frontend/src/api.ts:58 | each key holds the message of the last item with that key |
| ApiClient.FieldMapLastWins | frontend/src/api.ts:55-58 | every item is filed under its key unless a later item has the same key |
| ApiClient.NonFieldKey | frontend/src/api.ts:56 | an item whose loc is missing or has at most one element is filed under non_field |
| ApiClient.DefaultFieldMessage | frontend/src/api.ts:57 | an item with neither msg nor message gets "Invalid value" |
| ApiClient.ErrorMessage | frontend/src/api.ts:80-81 | the message chosen is always truthy |
| ApiClient.ParseApiError | frontend/src/api.ts:48-93 | the code is the response status or 0; a 409 becomes "Duplicate value" with its hinted field; a 422 carries the field map; other codes carry no fields; only an as422 that throws gives no error object |
| ApiClient.NoResponse | frontend/src/api.ts:49-81 | with no response the code is 0 and, with no message either, the text is "Request failed" |
| ApiClient.ConflictNameWins | frontend/src/api.ts:88-89 | a 409 mentioning both a name and a vehicle is reported against the name |
| ApiClient.ClientState.constructor | frontend/src/api.ts:9-15 | the saved configuration when there is one, else the default base with empty keys |
| ApiClient.ClientState.SetConfig | frontend/src/api.ts:33 | the new configuration is in use and saved, and every later request carries the key header the installed interceptor chooses from the new configuration |
| ApiClient.ClientState.HeaderFor | frontend/src/api.ts:18-31 | the client in use sends the admin key to `/admin` and `/skips/_seed` routes whenever one is set; otherwise the driver key to `/driver` and `/ensure-skip` routes whenever one is set; otherwise the caller's header; so the header is the caller's or a configured, non-empty key |
| ApiClient.ClientState.BaseUrl | frontend/src/api.ts:19 | the base URL is the configured base without its trailing slashes |
| ApiClient.DropAtFacility | frontend/src/api.ts:193-216 | a full collection to destination type TRANSFER named after the facility, every other argument passed through |
| ApiClient.Payload | frontend/src/api.ts:204-215 | the server receives the destination type as sent |
| ApiClient.DropRecordedAsRecycling | frontend/src/api.ts:206 | if no destination type has the name or value "transfer", the back end records a facility drop as a transfer to RECYCLING |
| ApiClient.DropRecordedAsNamedMember | frontend/src/api.ts:206 | if some destination type has the name or value "transfer", the back end records a facility drop under that member |
| Toasts.Notices | frontend/src/ui/toast.ts:9 | one call per listener, in registration order, each given the same queue |
| Toasts.TimeToLive | frontend/src/ui/toast.ts:13 | an explicit delay wins, even 0; otherwise 6000 ms for an error and 3000 ms for the rest |
| Toasts.WithoutId | frontend/src/ui/toast.ts:17 | exactly the toasts with another id stay, and the queue never grows |
| Toasts.WithoutIdConcat | frontend/src/ui/toast.ts:17 | dismissing works piece by piece, so the toasts that stay keep their order |
| Toasts.WithoutAbsentId | frontend/src/ui/toast.ts:17 | dismissing an id no toast has changes nothing |
| Toasts.Without | frontend/src/ui/toast.ts:23 | exactly the other listeners stay |
| Toasts.WithoutDistinct | frontend/src/ui/toast.ts:23 | removing a listener keeps the listeners free of repeats |
| Toasts.ToastCenter.constructor | frontend/src/ui/toast.ts:6-7 | no toasts, no listeners |
| Toasts.ToastCenter.Emit | frontend/src/ui/toast.ts:9 | every listener hears of the current queue, nothing else changes |
| Toasts.ToastCenter.Push | frontend/src/ui/toast.ts:11-15 | the toast goes first, the five newest are kept, every listener hears of it, and the delay is its time to live |
| Toasts.ToastCenter.Dismiss | frontend/src/ui/toast.ts:17 | the toasts with that id go, the rest stay in order, every listener hears of it |
| Toasts.ToastCenter.OnToast | frontend/src/ui/toast.ts:20-22 | the listener is registered at most once and is called straight away with the queue |
| Toasts.ToastCenter.Unsubscribe | frontend/src/ui/toast.ts:23 | only this listener is removed |
| Toasts.ToastCenter.Show | frontend/src/ui/toast.ts:26-30 | a toast of the kind, with the message, pushed under a fresh id |
| Toasts.PushedFirst | frontend/src/ui/toast.ts:12 | a pushed toast is first, and the queue holds at most five |
| Toasts.DismissUndoesPush | frontend/src/ui/toast.ts:11-17 | dismissing a toast just pushed under a fresh id gives back the old queue, as far as it was kept |
| WtnLink.TrimOneSlash | frontend/src/components/WtnLink.tsx:11 | one trailing "/" is removed, and only when there is one |
| WtnLink.WithLeadingSlash | frontend/src/components/WtnLink.tsx:12 | the path always starts with "/", and one that does is kept |
| WtnLink.JoinUrl | frontend/src/components/WtnLink.tsx:10-14 | the base less one trailing "/", a single "/" at the seam, then the path |
| WtnLink.JoinSingleSlash | frontend/src/components/WtnLink.tsx:10-14 | whichever side brings the slash, exactly one joins the base and the path |
| WtnLink.JoinKeepsSecondSlash | frontend/src/components/WtnLink.tsx:11 | only one trailing "/" of the base is removed |
| WtnLink.LinksShareTarget | frontend/src/components/WtnLink.tsx:17-18 | the preview and download links point at the same document and differ in the format asked for |
| WtnLink.OwnUrl | frontend/src/components/WtnLink.tsx:53 | a response's own link is a non-empty string |
| WtnLink.FindWtnUrl | frontend/src/components/WtnLink.tsx:50-64 | anything but an object or array gives none; a response's own link wins; any link found is non-empty |
| WtnLink.ScanValues | frontend/src/components/WtnLink.tsx:56-62 | any link the scan of the values finds is non-empty |
| WtnLink.FindIffHoldsLink | frontend/src/components/WtnLink.tsx:50-64 | the search finds a link exactly when the response holds one at some depth |
| WtnLink.ScanIffHolds | frontend/src/components/WtnLink.tsx:56-62 | the scan from a value on finds a link exactly when one of those values is or holds one |
| Scanner.DifferentTextAccepted | frontend/src/components/Scanner.tsx:21-23 | a text other than the last accepted one always passes, whatever the timing |
| Scanner.RepeatAcceptedIffLate | frontend/src/components/Scanner.tsx:23 | a repeat of the last text passes exactly when 1500 ms or more have gone by |
| Scanner.AcceptedAfterReset | frontend/src/components/Scanner.tsx:55 | after a reset every non-empty text passes |
| Scanner.ScannerState.constructor | frontend/src/components/Scanner.tsx:14-18 | nothing accepted yet, nothing reported, an empty entry field and no error |
| Scanner.ScannerState.HandleResult | frontend/src/components/Scanner.tsx:20-27 | an accepted text becomes the last one, stamped now, and is reported once; anything else changes nothing; no empty text is ever reported |
| Scanner.ScannerState.ResetLast | frontend/src/components/Scanner.tsx:55 | the last text and its time are cleared and nothing else changes |
| Scanner.ScannerState.EditManual | frontend/src/components/Scanner.tsx:87 | the entry field holds what was typed |
| Scanner.ScannerState.SubmitManual | frontend/src/components/Scanner.tsx:41-45 | a non-blank entry is reported trimmed, bypassing the duplicate filter; a blank one is ignored |
| Scanner.ScannerState.Paste | frontend/src/components/Scanner.tsx:29-39 | a non-empty clipboard text fills the field and is reported unfiltered; a failure shows its message, or "Clipboard is unavailable" |
| Scanner.DuplicateFrameReportedOnce | frontend/src/components/Scanner.tsx:20-27 | two results with one text within 1500 ms are reported at most once, and once when the first passes |
| DevConfig.ReadEntry | frontend/src/lib/devConfig.ts:20-25 | a missing or empty entry reads as an empty object; an entry that is not JSON throws; otherwise the parsed value |
| DevConfig.Chain | frontend/src/lib/devConfig.ts:27-34 | the first present value of the chain, else the default; it throws only when it reaches a property of null |
| DevConfig.FromEntries | frontend/src/lib/devConfig.ts:27-36 | the four fields, each from the current entry, else the legacy one, else "" |
| DevConfig.LoadCfg | frontend/src/lib/devConfig.ts:18-40 | the four fields as the lookups give them, or only an empty base URL after any throw |
| DevConfig.CurrentFieldWins | frontend/src/lib/devConfig.ts:27-29 | a string field of the current entry is used as it is, whatever the legacy entry holds |
| DevConfig.LegacyFieldUsed | frontend/src/lib/devConfig.ts:27-29 | where the current entry lacks a field, the legacy entry's is used |
| DevConfig.NoThrowFromObjects | frontend/src/lib/devConfig.ts:19-36 | lookups on entries that are not null never throw |
| DevConfig.LegacyIdBecomesName | frontend/src/lib/devConfig.ts:32-34 | a legacy driver id is read as the driver name when neither entry names the driver |
| DevConfig.EmptyStorage | frontend/src/lib/devConfig.ts:18-36 | with no saved entries every field reads as "" |
| DevConfig.CfgJsonFields | frontend/src/lib/devConfig.ts:51 | a written entry reads back its fields as written and has no driverId |
| DevConfig.FourMembers | frontend/src/lib/devConfig.ts:51 | an object of four members with distinct keys reads each member back |
| DevConfig.Merge | frontend/src/lib/devConfig.ts:44-50 | each field is the one given, else the current one; the base URL loses its trailing slashes; no driverId is written |
| DevConfig.DevStore.constructor | frontend/src/lib/devConfig.ts:15 | the storage holds the given entries |
| DevConfig.DevStore.SaveCfg | frontend/src/lib/devConfig.ts:43-52 | the console's entry becomes the merge of the new settings into those loaded now; nothing else changes |
| DevConfig.DevStore.ResetCfg | frontend/src/lib/devConfig.ts:54-56 | the console's entry is removed and the legacy entry stays |
| DevConfig.SaveLoadRoundTrip | frontend/src/lib/devConfig.ts:18-52 | saved settings with every field present load back exactly, unless the legacy entry is not JSON |
| DevConfig.SaveThenLoad | frontend/src/lib/devConfig.ts:43-52 | after a successful load, the merged settings are exactly what the next load returns |
| DevConfig.CorruptLegacyHidesSaved | frontend/src/lib/devConfig.ts:24-39 | a legacy entry that is not JSON hides every saved setting, and saving cannot repair it |
| ConfigCard.NormalizedBase | frontend/src/components/ConfigCard.tsx:6-12 | the result has no white space and no trailing "/" |
| ConfigCard.NormalizeBaseUrl | frontend/src/components/ConfigCard.tsx:6-12 | the step-by-step rebinding computes the normalised base |
| ConfigCard.NormalizeIdempotent | frontend/src/components/ConfigCard.tsx:6-12 | normalising a normalised base changes nothing |
| ConfigCard.NormalizeIgnoresPadding | frontend/src/components/ConfigCard.tsx:7-10 | surrounding spaces and trailing slashes make no difference to a clean base |
| ConfigCard.CanSaveIffNotBlank | frontend/src/components/ConfigCard.tsx:28 | saving is enabled exactly when the base URL is not blank |
| ConfigCard.SlashesOnlySaveEmpty | frontend/src/components/ConfigCard.tsx:6-28 | a base URL of slashes only can be saved, and what is saved is the empty base URL |
| ConfigCard.PartialOf | frontend/src/components/ConfigCard.tsx:21-22 | saveCfg receives the card's base URL, keys, name and id |
| ConfigCard.Card.constructor | frontend/src/components/ConfigCard.tsx:15-18 | the card shows the settings as loaded and is not marked saved |
| ConfigCard.Card.EditBaseUrl | frontend/src/components/ConfigCard.tsx:38 | the base URL field holds what was typed, nothing else changes |
| ConfigCard.Card.EditDriverKey | frontend/src/components/ConfigCard.tsx:45 | the driver key holds what was typed, nothing else changes |
| ConfigCard.Card.EditAdminKey | frontend/src/components/ConfigCard.tsx:52 | the admin key holds what was typed, nothing else changes |
| ConfigCard.Card.EditDriverId | frontend/src/components/ConfigCard.tsx:57-58 | the Driver Id field edits driverId, nothing else changes |
| ConfigCard.Card.OnSave | frontend/src/components/ConfigCard.tsx:20-24 | the card holds its settings with the base normalised and is marked saved; storage holds their merge into the loaded settings |
| ConfigCard.SavedAsEdited | frontend/src/lib/devConfig.ts:43-51 | the saved base is the card's normalised base, and each key and the name come from the card where it has them |
| ConfigCard.TypedDriverIdLost | frontend/src/components/ConfigCard.tsx:57-58 | a driver id typed into the card is never saved: saving with or without one leaves the same settings to load |
| AppHelpers.SafeNum | frontend/src/App.js:69 | a number is itself; null, objects, arrays and blank text are 0; booleans are 1 or 0; decimal text padded with white space is its value |
| AppHelpers.SafeNumOfIntText | frontend/src/App.js:69 | the text of an integer with any padding reads back as that integer |
| AppHelpers.SafeNumOfWord | frontend/src/App.js:69 | a word reads as 0, never as a failure |
| AppHelpers.DriverLabel | frontend/src/App.js:70 | the first present of full name, name, email and phone, else "(unnamed)"; never null |
| AppHelpers.VehicleLabel | frontend/src/App.js:71 | the first present of registration, plate and id, else "(no reg)"; never null |
| AppHelpers.EmptyFullNameKept | frontend/src/App.js:70 | an empty full name counts as present, so such a driver is labelled "" |
| AppHelpers.MissingGetsPlaceholder | frontend/src/App.js:70-71 | a missing driver or vehicle gets its placeholder |
| AppHelpers.FindWtnUrlShallow | frontend/src/App.js:72-84 | any link found is non-empty |
| AppHelpers.ScanTopLevel | frontend/src/App.js:78-82 | the scan from a value on finds a link exactly when a later top-level value is one |
| AppHelpers.ShallowIff | frontend/src/App.js:72-84 | the console finds a link exactly when the response has its own or one as a top-level value |
| AppHelpers.ShallowImpliesDeep | frontend/src/App.js:72-84 | whatever the console's search finds, the note link component's search finds something too |
| AppHelpers.NestedLinkMissed | frontend/src/App.js:78-82 | a link one level down is found by the component and missed by the console |
| AppHelpers.Console.constructor | frontend/src/App.js:114-115 | the results panel starts empty |
| AppHelpers.Console.PushOut | frontend/src/App.js:114-116 | the entry goes first and only the thirty newest are kept |
| AppHelpers.CheckField | frontend/src/App.js:259-276 | the field has an error exactly when it is missing, blank or too long; too long overrides required |
| AppHelpers.ValidateDriver | frontend/src/App.js:259-267 | a name error exactly when the name is missing, blank or over 80 characters, with the matching message |
| AppHelpers.ValidateVehicle | frontend/src/App.js:268-276 | a registration error exactly when it is missing, blank or over 32 characters, with the matching message |
| Feed.Prepend | frontend/src/App.js:115 | the new entry then the old ones, cut to at most n |
| Feed.PrependShape | frontend/src/ui/toast.ts:12 | the new entry is first, followed by the newest old entries in their order |
| Feed.PrependTwice | frontend/src/App.js:115 | cutting after every push equals cutting once: the list always holds the n newest entries |
| Feed.PrependMembers | frontend/src/ui/toast.ts:12 | no entry is invented: each is the new one or an old one |

## Left out

- HTTP routing, dependency injection and the ORM session are not modelled as such: each table is a sequence field of a class (`Store.SkipDb`, `DriverSchedule.TaskDb`, `JobsService.JobDb`), and a commit is the update of that field. A flush that is never committed is modelled only where it matters, in `Driver.ReturnEmptyAsWritten`.
- Clocks (`datetime.utcnow`, `Date.now`), generated ids (uuid4, `Math.random`), `str()` of numbers and dates, `strftime` and the results of `toLocaleTimeString` are parameters of the members that use them.
- Concurrency: the source takes no lock per skip, and racing commands are not modelled; every command runs alone.
- Document rendering: the HTML templates, the PDF engines and the QR and label images are foreign code. The model keeps the render context, the choice between PDF and HTML, and the label asset rows, but not their bytes.
- `_get_wtn` in `backend/app/api/wtn.py` tries several spellings of a note id against the database; the model looks notes up by id only.
- Floating point: weights are `real`. Number parsing (`float()` in Python, `Number()` in JavaScript) is modelled for decimal text: an optional sign, digits and an optional fraction. Exponents, hexadecimal, `inf` and `nan` are not modelled.
- Driver.GetNum: text in any other numeric spelling (exponent, `inf`, underscores) is treated as not a number.
- AppHelpers.SafeNum: a one-element array, which `Number()` reads as its element, is modelled as 0.
- Text: only ASCII white space (space, tab, line feed, carriage return, vertical tab, form feed) and ASCII letters are special; there is no Unicode case folding. Python's `str.strip()` also removes the separators `\x1c` to `\x1f` and non-ASCII white space, which the model keeps. A length is a count of characters, while JavaScript's `.length` in the 80- and 32-character checks of `frontend/src/App.js` counts UTF-16 code units, so a name with characters outside the Basic Multilingual Plane can be refused by the source and accepted by the model.
- JavaScript `undefined` and `null` are both `JNull`. The two differ only for `??`, whose behaviour is the same on both.
- DriverModel.ParseEnum: members are matched on their lower-cased name or lower-cased value, as `parse_enum` does; the enum classes themselves are not part of this model.
- DriverModel.DestinationTypes: the members of `DestinationType` and of `WeightSource` (`DriverModel.WeightSources`) are left open, because the module that declares them is not part of this model; only the members the driver routes name, `WEIGHBRIDGE` and `RECYCLING`, are fixed, and every result that depends on the lists states its hypothesis (`TransferFallsBackToRecycling` and `TransferNamesMember` cover both cases; `TransferDefaults` assumes no member has an empty name or value).
- `SkipPlacement` is not defined by any model file shown, so whether the placement table exists is a constant of `Store.SkipDb`; without it the active placement is the skip's zone.
- The `Organization` table is a parameter of the seeding and creation commands (a list, or none when the table is missing).
- `create_job` and `get_job` in `backend/app/services/jobs_service.py` are not modelled beyond `JobsService.FindJob`, which is the lookup `update_job` and `mark_done` use.
- Toasts.ToastCenter.Push: the `setTimeout` that dismisses a toast later is not modelled; the delay it would use is returned instead.
- ConfigCard.Card.OnSave: the timer that clears the "Saved." note is not modelled.
- Scanner: the pause toggle and the camera's error callback only change what is shown, and are not modelled.
- The compiled JavaScript copies of the TypeScript files are not modelled; `joinUrl` in `frontend/src/App.js` is the same function as in `frontend/src/components/WtnLink.tsx` and is modelled once, as `WtnLink.JoinUrl`.
- localStorage is a map from keys to strings; the browser's clipboard, axios and fetch are left out, and what they return is a parameter.
- WtnApi.FmtDt: the date format is a parameter, so the fixed `%Y-%m-%d %H:%M` layout is not stated.
- Ties in `ORDER BY`: SQL leaves open the order of rows with equal sort keys; `Ordering.SortBy` fixes one choice, their table order, so that each query is a function. `Driver.Latest`, `DriverSchedule.ScheduleQuery`, `JobsService.NewestJobsFirst`, `JobsService.JobsForDriver` and `SkipsDemo.SortNewestFirst` state only what holds for every order of ties. The response of `Driver.ReturnEmptySpec` names, on a tie in `placed_at`, the placement the model picks (the one inserted last), and `SkipsDemo.SoftDeleteStillVisible` compares two listings under this one choice.
- Driver.LatestIsNewest: promises the result only when the last row is strictly the latest; on a tie in `placed_at` the lookup may return either row.
- Driver.SafePlaceLatest: requires every earlier placement to be stamped before the command's time; on a tie in `placed_at` the newest-first lookup, which has no `removed_at` filter, may return the placement just closed, and nothing is promised then.
- Driver.ReturnEmptyNamesNewPlacement: the same assumption; on a tie the response may name the placement just closed.
- DriverSchedule.SeededScheduleListed: the four seeded tasks share one `scheduled_at` (`func.now()` is one time per transaction), so their order in the schedule is not promised, only that the schedule holds exactly them.
- DriverSchedule.BatchListed: the order within the batch is promised only when its scheduled times are distinct.
- Driver.SafePlaceSpec: `_safe_place` catches and prints any exception, so a database failure inside it would leave the movement recorded with the placements closed but none opened, or with nothing placed at all, and the command would still answer success; the model assumes the placement queries succeed and does not model that partial state. Driver.SafePlace has the same gap.
- DbConfig.Settings.constructor: environment names are matched exactly; pydantic's case-insensitive matching of names (so that `database_url` also sets the field) is not modelled, and `.env` is given as a parsed map.
- SkipsApi.ToInt: Python's `int()` also accepts single underscores between digits (`"1_000"`) and decimal digits of other scripts; the model reads only an optional sign and ASCII digits, so those texts give nothing where the source gives the integer. No skip column receives the value.
- WtnLink.FindWtnUrl: `Object.values` visits integer-like keys first, in ascending order, and then the other keys in insertion order; the model scans members in their order as given. When a response holds more than one link, the model can return a different one from the source, for example `/wtn/x.pdf` rather than `/wtn/y.pdf` for `{"b": "/wtn/x.pdf", "1": "/wtn/y.pdf"}`. Whether a link is found at all does not depend on the order, as `WtnLink.FindIffHoldsLink` states.
- AppHelpers.FindWtnUrlShallow: the same member-order scan where `frontend/src/App.js` uses `Object.values`; which of several top-level links is returned can differ, but whether one is found cannot (`AppHelpers.ShallowIff`).

## Notes

- A `DATABASE_URL` of white space only is not treated as missing: it is stripped to the empty URL (`DbConfig.BlankGivesEmpty`).
- The front end's `dropAtFacility` sends the destination type `TRANSFER`. If the back end's `DestinationType` has no member with that name or value, the drop is recorded as a transfer to recycling (`ApiClient.DropRecordedAsRecycling`); if it has one, the drop is recorded under it (`ApiClient.DropRecordedAsNamedMember`).
- The settings card edits a "Driver Id" field that `saveCfg` never writes, so an id typed there is lost (`ConfigCard.TypedDriverIdLost`).
- A legacy settings entry that is not JSON makes `loadCfg` return only an empty base URL, which hides every saved setting; saving cannot repair this (`DevConfig.CorruptLegacyHidesSaved`).
- The settings card lets a base URL of slashes only be saved, and saves the empty base URL (`ConfigCard.SlashesOnlySaveEmpty`).
- The console's note link search looks at top-level values only, so it misses a link that the note link component finds one level down (`AppHelpers.NestedLinkMissed`).
- The unique constraint on `(skip_id, unassigned_at)` does not stop two open assignments, because SQL treats NULLs as distinct. The model proves the one-open-assignment invariant from the commands instead (`BinAssignments.AssignBinOnlyOpen`).
- `debug_settings.py` imports `CORS_ORIGINS_LIST` from the configuration, and reads `ADMIN_API_KEY`, `DRIVER_API_KEY` and `CORS_ALLOW_CREDENTIALS` from it, but `backend/app/core/config.py` defines none of them. They are parameters of `DebugSettings.Cors` and `DebugSettings.Keys`.
- Only collection checks the skip's state before it acts: relocating a skip that is not deployed, or returning one that is already deployed, succeeds. A caller might expect such commands to be refused; the model follows the code and adds no such check. The code names the delivery movement `DELIVERY_EMPTY` and the relocation `RELOCATION_EMPTY`.
- The second `createClient` in `frontend/src/api.ts` is declared inside `parseApiError` and is never called; the client in use is the first one.

## Findings

| source | as written | input that shows it | evidently intended | confidence | as-written member | corrected member |
|---|---|---|---|---|---|---|
| backend/app/api/admin_bin_assignments.py:29 | closing the open assignment calls `func.now()`, but `func` is not imported, so the request fails with a server error | assigning a skip that already has an open assignment | the open assignment is closed at the current time and the new one opened | high (not executed) | BinAssignments.AssignOwnedAsWrittenFails | BinAssignments.AssignBinOnlyOpen |
| backend/app/api/dev.py:95-100 | the new skip is built with `size` and `color`, which the skip record does not have, so every seed that passes the checks fails | a seed with the right secret and a new code | the skip is inserted once under its code | high (not executed) | DevApi.DevSeedAsWrittenNeverInserts | DevApi.DevSeedIntendedInsertsOnce |
| backend/app/api/driver.py:301-348 | `return_empty` flushes but never commits, and the session is closed without a commit, so the movement and the placement are lost | any valid return of a skip | the return is committed like the other three commands | high (not executed) | DriverProps.ReturnEmptyAsWrittenLosesState | DriverProps.ReturnEmptyCommittedPersists |
| backend/app/api/skips.py:175-194 | the label asset rows are built without their primary key, which has no default, so the flush fails | seeding a code that has no skip | the skip and its four label rows are inserted | medium (not executed) | SkipsApi.SeedNewSkipAsWrittenFails | SkipsApi.SeedNewSkipInserts |
| frontend/src/api.ts:24 | the installed interceptor sends the admin key to `/admin` and `/skips/_seed` only, not to the admin-gated `/__debug` routes | `latestWtns`, a request for `/__debug/wtns` with an admin key configured | the admin key is sent to `/__debug` routes too, as the second copy at line 70 does | medium (not executed) | ApiClient.DebugRouteMissesAdminKey | ApiClient.DebugRouteGetsAdminKey |
