# Maintenance dashboard — a Dafny model of its rules

The system is a maintenance dashboard for enterprises that run fleets of
machines. It has a Spring Boot back end that keeps its data in a Firebase
realtime database, with a JPA table for enterprises and a local photo
directory. It also has one large browser script that keeps the current
enterprise's data in `localStorage` and draws a calendar. This project models
the rules under that plumbing and proves what they promise. The stores become
maps and sequences. The clock, UUIDs, the outcome of database writes and of
mail sends become parameters.

One file per part of the system:

| file | what it models |
|---|---|
| `base.dfy` | `Option`, `Result`, lookups that may fail, JavaScript ids, database values, Java `int`/`long` ranges and 32-bit wrap-around |
| `java_strings.dfy` | `String.trim`, `StringUtils.hasText`, ASCII `toLowerCase`/`equalsIgnoreCase`/`compareToIgnoreCase`, `lastIndexOf`, `replace`, `Integer.parseInt`/`Long.parseLong`, `String.valueOf`, `padStart`, `String.hashCode`, `Objects.hash` |
| `roles.dfy` | role names and the role guards of the controllers |
| `ordering.dfy` | the name order of the category and stock lists (ignoring case, unnamed last) and a sort by it |
| `machine.dfy` | the `Machine` entity, `MachineForm.toMachine`, type selection, create/update checks and state normalisation, custom fields, the list filter, backup counts, breakdown detection, backup promotion |
| `stock.dfy` | the `StockParCategorie` counters (a class updated by `addMachine`) and `StockService` grouping, filtering and sorting |
| `snapshot.dfy` | decoding database snapshots: `readLong`, `readString`, flags, photo lists, machine and category mappers, the soft-delete filter, the enterprise listing and its legacy address migration, the partial user update |
| `tickets.dfy` | the `Ticket` entity (a class) with write-once status dates and comments, Kanban columns, creation, partial update, archive, comment guard |
| `escalation.dfy` | alerts and reminders: escalation settings, verification history, the reminder views, superadmin guards, and the two schedulers' bookkeeping (a class over the record store) |
| `mailing.dfy` | subjects, body parts and the superadmin address of `EmailService` |
| `users.dfy` | create/edit/delete rules and the weekly-hours build and merge of `UserWebController` |
| `enterprises.dfy` | `EnterpriseController` form checks, the `EnterpriseService` pair of JPA rows and database nodes (a class), and the Firebase-to-JPA synchronisation |
| `categories.dfy` | `CategoryService`: normalisation, sorted listing, lookup, duplicate checks, sub-category ownership |
| `counters.dfy` | component counts per machine, dashboard statistics, report histograms and monthly counts |
| `forms.dfy` | `StockForm.toStock`, `ComponentForm.toComponent` and `setPhotos` |
| `media_storage.dfy` | `LocalFileStorageService`: photo paths, URLs, the upload cap and the checks that keep writes and deletes under the storage root |
| `client_store.dfy` | the browser's per-enterprise store: twelve collections, the current enterprise, save, load, seed and switch (a class) |
| `calendar_dates.dfy` | civil dates as day numbers, `getDay`, the ISO 8601 week number of `getWeekNumber`, `YYYY-MM-DD` texts |
| `calendar_view.dfy` | `getEventsForDate` with its six sources and filters, and the 42-cell month grid with the alternating-week rule |
| `client_rules.dfy` | `getStockStatus`, the `deleteCategory` cascade, ticket numbering `TKT-nnn`, ticket and repair status changes (classes over the ticket and repair lists) |

Where the code does something step by step (the stock counters, the ticket
entity, the schedulers' loops, the enterprise store, the browser store, the
counting loops), the model is a method with loop invariants. Its `ensures`
ties the result to a function, and lemmas prove the properties of that
function. Conversions and checks that are expressions in the source are
functions.

One place where the documented design and the code differ: the design
describes a repair lifecycle (pending, then in progress, then completed or
cancelled). The repair handlers in `script.js` (lines 2905-3018) set the new
status whatever the current one is. The model follows the code, and
`ClientRules.LifecycleNotEnforced` states that no transition is refused.

## Model

| member | source | states |
|---|---|---|
| Machines.Machine.WithPhotos | src/main/java/com/maintenance/maintenance/model/entity/Machine.java:75-77 | `setPhotos(null)` stores an empty list, any other list as given; no other field changes |
| Machines.Machine.WithChamps | src/main/java/com/maintenance/maintenance/model/entity/Machine.java:247-253 | `setChampsPersonnalises(null)` stores an empty map, so the map is never null; no other field changes |
| Machines.NewMachine | src/main/java/com/maintenance/maintenance/model/entity/Machine.java:9-37 | a fresh machine reads as operational, not in repair, not programmed, not a backup, not in the warehouse, not deleted, with no photos and no custom fields (the defaulting getters at 135-153, 175-185, 239-241) |
| Machines.MachineHash | src/main/java/com/maintenance/maintenance/model/entity/Machine.java:262-265 | `hashCode` is `Objects.hash(machineId)`, a 32-bit value |
| Machines.HashAgreesWithEquals | src/main/java/com/maintenance/maintenance/model/entity/Machine.java:255-265 | machines equal by `equals` have equal hash codes |
| Machines.EqualityIsIdentity | src/main/java/com/maintenance/maintenance/model/entity/Machine.java:255-260 | `equals` holds exactly when the ids are equal, whatever the state flags |
| Machines.ToMachine | src/main/java/com/maintenance/maintenance/model/dto/MachineForm.java:17-25 | `toMachine` stores the trimmed name, serial, location and notes (null as ""), the form's photo list, and leaves every other field at its default |
| Machines.SetExistingPhotos | src/main/java/com/maintenance/maintenance/model/dto/MachineForm.java:71-73 | `setExistingPhotos(null)` gives an empty list, any other list is copied; nothing else in the form changes |
| Machines.ToMachineLeavesEnterpriseUnset | src/main/java/com/maintenance/maintenance/model/dto/MachineForm.java:17-25 | the converted machine has no id and no enterprise id and reads as an operational, non-warehouse machine not in repair |
| Machines.TypeSelectionCases | src/main/java/com/maintenance/maintenance/controller/MachineController.java:1795-1817 | a blank selection leaves the form alone; "secours" (trimmed, any case) makes a backup that keeps its parent; "entrepot" a warehouse machine without parent; any other text a principal without parent |
| Machines.TypeSelectionExclusive | src/main/java/com/maintenance/maintenance/controller/MachineController.java:1795-1817 | after a non-blank selection a machine is never both a backup and a warehouse machine |
| Machines.CreateCheck | src/main/java/com/maintenance/maintenance/controller/MachineController.java:1056-1071 | creation is accepted exactly when a warehouse machine has a serial and no IP, or a non-warehouse machine has a serial or an IP |
| Machines.CreateCheckReasons | src/main/java/com/maintenance/maintenance/controller/MachineController.java:1056-1071 | which refusal each bad input gets: a warehouse machine with an IP is refused for the IP, one without serial for the serial, a non-warehouse one for lacking both |
| Machines.NormaliseCreated | src/main/java/com/maintenance/maintenance/controller/MachineController.java:1082-1101 | a created warehouse machine is non-operational, programmed and not in repair; any other is not programmed and is in repair exactly when it is not operational; only the state flags change |
| Machines.UpdateCouplesRepair | src/main/java/com/maintenance/maintenance/controller/MachineController.java:1440-1499 | after the update rules, a non-warehouse machine is in repair exactly when it is not operational, is not programmed, and, once the stored machine is known, a machine in repair is never an attached backup |
| Machines.RepairedMachineBecomesBackup | src/main/java/com/maintenance/maintenance/controller/MachineController.java:1488-1493 | a machine that was in repair and is saved operational and repaired becomes an operational backup |
| Machines.LeavingWarehouse | src/main/java/com/maintenance/maintenance/controller/MachineController.java:1476-1483 | a machine taken out of the warehouse comes out operational, not in repair and no longer programmed |
| Machines.ReplaceOutsideFieldChars | src/main/java/com/maintenance/maintenance/controller/MachineController.java:1110 | `replaceAll("[^a-z0-9_]", "_")`: same length, each character kept when allowed, otherwise '_' |
| Machines.SanitisedChars | src/main/java/com/maintenance/maintenance/controller/MachineController.java:1110 | a sanitised field name is as long as the trimmed name and uses only a-z, 0-9 and '_' |
| Machines.FieldNameCharsAreFixed | src/main/java/com/maintenance/maintenance/controller/MachineController.java:1110 | a name made only of allowed characters is left unchanged by trimming, lower-casing and replacement |
| Machines.SanitiseIdempotent | src/main/java/com/maintenance/maintenance/controller/MachineController.java:1110 | sanitising a sanitised name changes nothing |
| Machines.AddPairKey | src/main/java/com/maintenance/maintenance/controller/MachineController.java:1109-1112 | one pair adds its sanitised name with the trimmed value when both have text, and leaves every other key as it was |
| Machines.CustomFieldsHasKey | src/main/java/com/maintenance/maintenance/controller/MachineController.java:1106-1117 | every pair with a non-blank name and value puts its sanitised name in the map |
| Machines.CustomFieldsKeyOrigin | src/main/java/com/maintenance/maintenance/controller/MachineController.java:1106-1117 | every key of the map comes from some kept pair and holds the trimmed value of such a pair |
| Machines.CustomFieldsKeys | src/main/java/com/maintenance/maintenance/controller/MachineController.java:1106-1117 | the keys are exactly the sanitised names of the pairs whose name and value both have text |
| Machines.BuildCustomFields | src/main/java/com/maintenance/maintenance/controller/MachineController.java:1106-1113 | the loop over the two arrays builds the map the pair rules define |
| Machines.ApplyCustomFieldsOnCreate | src/main/java/com/maintenance/maintenance/controller/MachineController.java:1104-1117 | on create the machine gets the built map only when the arrays are present, of equal length and give a non-empty map; otherwise it is unchanged |
| Machines.ApplyCustomFieldsOnUpdate | src/main/java/com/maintenance/maintenance/controller/MachineController.java:1461-1474 | on update well-formed arrays always replace the map, even by an empty one; otherwise the stored machine's map is carried over; nothing but the map changes |
| Machines.FilterMachinesMembers | src/main/java/com/maintenance/maintenance/controller/MachineController.java:186-270 | the list keeps exactly the machines that pass every filter (type, search, category, operational) |
| Machines.ListHidesAttachedBackups | src/main/java/com/maintenance/maintenance/controller/MachineController.java:190-198 | unless `estSecours` is "true", a backup attached to a principal is never listed |
| Machines.OperationalFilterSplits | src/main/java/com/maintenance/maintenance/controller/MachineController.java:232-251 | `operationnel=true` keeps only operational machines not in repair, any other text keeps only the others |
| Machines.SecoursCountMap | src/main/java/com/maintenance/maintenance/controller/MachineController.java:287-301 | without an enterprise the map is empty; otherwise each parent id maps to the number of backups attached to it, and only such parents are keys |
| Machines.SecoursCountAppend | src/main/java/com/maintenance/maintenance/controller/MachineController.java:293-301 | the backup count of a list is the sum of the counts of its parts |
| Machines.BreakdownNeedsChange | src/main/java/com/maintenance/maintenance/controller/MachineController.java:1353-1376 | a form that keeps both flags (or omits them) never signals a breakdown |
| Machines.BreakdownOnTransition | src/main/java/com/maintenance/maintenance/controller/MachineController.java:1366-1376 | operational going true to false, or in-repair going false to true, signals a breakdown |
| Machines.PromotionError | src/main/java/com/maintenance/maintenance/controller/MachineController.java:736-758 | promotion is allowed exactly when the principal exists and is not operational, and the backup exists and is attached to that principal; otherwise the first failing check is reported, in the handler's order |
| Machines.PromoteSecours | src/main/java/com/maintenance/maintenance/controller/MachineController.java:735-814 | a refused promotion returns its refusal and changes nothing; an allowed one returns the store with the backup promoted and the principal and every other backup retired |
| Machines.PromotionKeepsIds | src/main/java/com/maintenance/maintenance/controller/MachineController.java:769-814 | promotion adds and removes no machine |
| Machines.PromotionPromotes | src/main/java/com/maintenance/maintenance/controller/MachineController.java:768-772 | the chosen backup becomes an operational principal, not in repair, with no parent |
| Machines.PromotionRetires | src/main/java/com/maintenance/maintenance/controller/MachineController.java:796-814 | the old principal and every other backup of it become non-operational, in repair, not a backup and unattached; other machines are untouched |
| Machines.PromotionDetachesAll | src/main/java/com/maintenance/maintenance/controller/MachineController.java:769-814 | after promotion no machine is still attached to the old principal |
| StockPerCategory.CountersBalance | src/main/java/com/maintenance/maintenance/model/dto/StockParCategorie.java:131-162 | over any list of machines, total plus non-operational equals the number of machines, operational equals available, and new machines never exceed the total |
| StockPerCategory.CountZeroIff | src/main/java/com/maintenance/maintenance/model/dto/StockParCategorie.java:131-162 | a counter is zero exactly when none of the machines raises it |
| StockPerCategory.CountAppend | src/main/java/com/maintenance/maintenance/model/dto/StockParCategorie.java:131-162 | the counters of two lists put end to end are the sums of their counters |
| StockPerCategory.CountsSnoc | src/main/java/com/maintenance/maintenance/model/dto/StockParCategorie.java:131-162 | one added machine raises the total iff it is new or available, operational and available together iff it is available, non-operational iff it is neither, in-repair, backup and new iff their flag is set |
| StockPerCategory.StockParCategorie.Empty | src/main/java/com/maintenance/maintenance/model/dto/StockParCategorie.java:20-28 | the no-argument constructor starts with no category, no machines and every counter at zero |
| StockPerCategory.StockParCategorie.constructor | src/main/java/com/maintenance/maintenance/model/dto/StockParCategorie.java:30-41 | the category constructor stores the category and starts with no machines and every counter at zero |
| StockPerCategory.StockParCategorie.AddMachine | src/main/java/com/maintenance/maintenance/model/dto/StockParCategorie.java:131-162 | `addMachine` appends the machine exactly once, keeps the category, and leaves every counter equal to the number of listed machines it counts |
| StockPerCategory.FillCounters | src/main/java/com/maintenance/maintenance/model/dto/StockParCategorie.java:131-162 | after adding machines one by one, total plus non-operational is the number of machines, operational equals available, and new is at most total |
| StockPerCategory.MachinesOfMembers | src/main/java/com/maintenance/maintenance/service/StockService.java:88-98 | the machines of a category are exactly the listed machines with that (non-null) category id; a null id selects none |
| StockPerCategory.GetMachinesParCategorie | src/main/java/com/maintenance/maintenance/service/StockService.java:88-98 | the loop returns the machines of the category in list order |
| StockPerCategory.InitialStocksShape | src/main/java/com/maintenance/maintenance/service/StockService.java:39-47 | before any machine is counted, every category id of the list has an empty entry filed under it, and no other id has one |
| StockPerCategory.StocksForMachines | src/main/java/com/maintenance/maintenance/service/StockService.java:49-66 | after the machine loop an entry exists iff it existed before or some machine names its id, and holds its earlier machines followed by exactly that category's machines; machines without a category id are counted nowhere |
| StockPerCategory.StocksForKeyed | src/main/java/com/maintenance/maintenance/service/StockService.java:49-66 | the machine loop files every entry under its own category id |
| StockPerCategory.StockMatchesCategoryPage | src/main/java/com/maintenance/maintenance/service/StockService.java:38-98 | the entry of a reported category holds exactly the machines `getMachinesParCategorie` returns for it |
| StockPerCategory.BrokenCategoryHidden | src/main/java/com/maintenance/maintenance/service/StockService.java:68-75 | a category whose machines are all unavailable and none new has a total of zero and is left out of the result |
| StockPerCategory.UnknownCategoryNamed | src/main/java/com/maintenance/maintenance/service/StockService.java:55-63 | a machine with an unknown category id opens an entry named by its category name, or "Catégorie <id>" when that is null, holding just that machine |
| StockPerCategory.CalculerStockParCategorie | src/main/java/com/maintenance/maintenance/service/StockService.java:34-83 | the result is sorted by name ignoring case with unnamed entries last, holds exactly the map's entries whose total is positive, and lists each category once |
| StockPerCategory.KeepShown | src/main/java/com/maintenance/maintenance/service/StockService.java:68-75 | the filter over the map's entries keeps exactly those with a positive total, each once |
| Base.Wrap32 | src/main/java/com/maintenance/maintenance/service/AlertSchedulerService.java:80 | the Java `int` result is in the 32-bit range, congruent to the exact value modulo 2^32, and equal to it when it fits |
| JavaStrings.TrimLeft | src/main/java/com/maintenance/maintenance/service/FirebaseRealtimeService.java:1500 | the leading part dropped is exactly characters <= ' ', and what remains starts with one above ' ' |
| JavaStrings.TrimRight | src/main/java/com/maintenance/maintenance/service/FirebaseRealtimeService.java:1500 | the trailing part dropped is exactly characters <= ' ', and what remains ends with one above ' ' |
| JavaStrings.Trim | src/main/java/com/maintenance/maintenance/service/FirebaseRealtimeService.java:1500-1516 | `trim()` gives a text no longer than the input, starting and ending above ' ' |
| JavaStrings.TrimOrEmpty | src/main/java/com/maintenance/maintenance/model/dto/StockForm.java:22 | the result is empty or has a char above ' ' at both ends, and it is empty exactly when the input is null or all chars are <= ' '; a present input gives its `trim()` |
| JavaStrings.TrimOrNull | src/main/java/com/maintenance/maintenance/model/dto/StockForm.java:21 | null exactly when the input is null; a present result has a char above ' ' at both ends or is empty, and it is empty exactly when every input char is <= ' ' |
| JavaStrings.TrimNoop | src/main/java/com/maintenance/maintenance/service/FirebaseRealtimeService.java:1500 | a text with no character <= ' ' at either end is its own trim |
| JavaStrings.TrimIdempotent | src/main/java/com/maintenance/maintenance/service/FirebaseRealtimeService.java:1500 | trimming twice is trimming once |
| JavaStrings.TrimEmptyIff | src/main/java/com/maintenance/maintenance/controller/EnterpriseController.java:248 | `s.trim().isEmpty()` holds exactly when every character is <= ' ' |
| JavaStrings.TrimmedNonEmptyHasText | src/main/java/com/maintenance/maintenance/controller/EnterpriseController.java:248 | a text that survives `trim()` has text in the sense of `StringUtils.hasText` |
| JavaStrings.HasTextDoesNotImplyTrimmedNonEmpty | src/main/java/com/maintenance/maintenance/controller/EnterpriseController.java:248 | the converse fails: U+0001 has text yet trims to "" |
| JavaStrings.LowerChar | src/main/java/com/maintenance/maintenance/controller/MachineController.java:202 | upper-case ASCII letters move down by 32, every other character is kept, and the result is never upper-case |
| JavaStrings.ToLower | src/main/java/com/maintenance/maintenance/controller/MachineController.java:202 | same length, each character lower-cased |
| JavaStrings.ToLowerIdempotent | src/main/java/com/maintenance/maintenance/controller/MachineController.java:202 | lower-casing twice is lower-casing once |
| JavaStrings.LexLeqTotal | src/main/java/com/maintenance/maintenance/service/CategoryService.java:39 | any two texts compare one way or the other |
| JavaStrings.LexLeqTrans | src/main/java/com/maintenance/maintenance/service/CategoryService.java:39 | the comparison is transitive |
| JavaStrings.ContainsAt | src/main/java/com/maintenance/maintenance/controller/EnterpriseController.java:248 | a text occurring at some offset is contained |
| JavaStrings.LastIndexOf | src/main/java/com/maintenance/maintenance/service/LocalFileStorageService.java:80 | -1 exactly when the character is absent; otherwise the index holds it and no later index does |
| JavaStrings.ReplaceChar | src/main/java/com/maintenance/maintenance/service/LocalFileStorageService.java:99 | same length, every `from` replaced by `to` and every other character kept |
| JavaStrings.DigitChar | src/main/resources/static/js/script.js:4239 | a digit below ten prints as a decimal digit character |
| JavaStrings.NatToString | src/main/resources/static/js/script.js:4239 | the decimal text is non-empty digits whose value is the number, with no leading zero |
| JavaStrings.IntToString | src/main/java/com/maintenance/maintenance/controller/AlertController.java:253 | non-empty, and starts with '-' exactly for negative numbers |
| JavaStrings.ParseInteger | src/main/java/com/maintenance/maintenance/service/FirebaseRealtimeService.java:1503-1985 | a parsed value lies in the type's range, and only a text starting with a digit or sign parses; "" never does |
| JavaStrings.ParseLong | src/main/java/com/maintenance/maintenance/service/FirebaseRealtimeService.java:1503 | `Long.parseLong` yields a 64-bit value |
| JavaStrings.ParseInt | src/main/java/com/maintenance/maintenance/controller/AlertController.java:253 | `Integer.parseInt` yields a 32-bit value |
| JavaStrings.ParseIntegerRoundTrip | src/main/java/com/maintenance/maintenance/controller/AlertController.java:253 | parsing what `String.valueOf` printed gives back any in-range number |
| JavaStrings.ParseLongRoundTrip | src/main/java/com/maintenance/maintenance/service/FirebaseRealtimeService.java:1503 | the same round trip for `long` |
| JavaStrings.PadStart | src/main/resources/static/js/script.js:4239 | `padStart` reaches the width (or keeps a longer text), ends with the text and fills only with the pad character |
| JavaStrings.Pad | src/main/resources/static/js/script.js:4239 | a zero-padded number is all digits and at least the width |
| JavaStrings.PadStartDigits | src/main/resources/static/js/script.js:4239 | padding digits with '0' leaves only digits |
| JavaStrings.LeadingZeros | src/main/resources/static/js/script.js:4239 | leading zeros do not change a decimal's value |
| JavaStrings.ZerosValue | src/main/resources/static/js/script.js:4239 | a run of zeros is worth 0 |
| JavaStrings.PadValue | src/main/resources/static/js/script.js:4239 | a zero-padded number reads back as the number |
| JavaStrings.HashCode | src/main/java/com/maintenance/maintenance/service/FirebaseRealtimeService.java:2290 | `String.hashCode` is a 32-bit value |
| JavaStrings.ObjectsHash | src/main/java/com/maintenance/maintenance/model/entity/Machine.java:263-265 | `Objects.hash` of one value is 32-bit, and 31 for null |
| Tickets.StampStatut | src/main/java/com/maintenance/maintenance/model/entity/Ticket.java:73-84 | `setStatut` stores the status and the modification time; the completion date exists afterwards iff it existed or the status is "termine", and an existing one is never rewritten; the archive date likewise with "archive" |
| Tickets.StampsAreWriteOnce | src/main/java/com/maintenance/maintenance/model/entity/Ticket.java:78-83 | over any sequence of status changes, the completion date is the one the ticket had, else the time of the first change to "termine"; the archive date likewise with "archive" |
| Tickets.StampsFollowLastChange | src/main/java/com/maintenance/maintenance/model/entity/Ticket.java:73-76 | after a sequence of status changes, the status and the modification time are those of the last change |
| Tickets.ArchiveTwiceKeepsDate | src/main/java/com/maintenance/maintenance/model/entity/Ticket.java:81-83 | archiving sets the archive date, and archiving again keeps the first one |
| Tickets.Ticket.constructor | src/main/java/com/maintenance/maintenance/model/entity/Ticket.java:29-35 | a new ticket has status "a_faire", priority "normale", no comments, and is created and modified now |
| Tickets.Ticket.SetStatut | src/main/java/com/maintenance/maintenance/model/entity/Ticket.java:73-84 | the stamps move as `StampStatut` says and no other field changes |
| Tickets.Ticket.SetCommentaires | src/main/java/com/maintenance/maintenance/model/entity/Ticket.java:186-188 | `setCommentaires(null)` stores an empty list, any other list as given; nothing else changes |
| Tickets.Ticket.AddCommentaire | src/main/java/com/maintenance/maintenance/model/entity/Ticket.java:190-196 | exactly one comment is appended at the end and the modification time is updated; status, dates and other fields are unchanged |
| Tickets.Ticket.Hash | src/main/java/com/maintenance/maintenance/model/entity/Ticket.java:213-216 | `hashCode` is `Objects.hash(ticketId)`, a 32-bit value |
| Tickets.TicketEqualityByIdOnly | src/main/java/com/maintenance/maintenance/model/entity/Ticket.java:206-216 | two tickets are equal iff their ids are; equality is symmetric and transitive and equal tickets hash alike |
| Tickets.ColumnMembers | src/main/java/com/maintenance/maintenance/controller/TicketController.java:156-170 | a Kanban column holds exactly the listed tickets whose status (null read as "a_faire") is the column's |
| Tickets.ColumnOfConcat | src/main/java/com/maintenance/maintenance/controller/TicketController.java:156-170 | columns keep list order: the column of two lists put end to end is the two columns put end to end |
| Tickets.KanbanPartition | src/main/java/com/maintenance/maintenance/controller/TicketController.java:156-170 | the four columns and the off-board tickets split the list: their sizes add up to the number of tickets |
| Tickets.OffBoardTicketsHidden | src/main/java/com/maintenance/maintenance/controller/TicketController.java:156-170 | a ticket with any other status appears in no column |
| Tickets.CreateRefusalCases | src/main/java/com/maintenance/maintenance/controller/TicketController.java:231-256 | creation goes ahead iff the role is superadmin or technicien ignoring case, an enterprise is known (given or last selected) and the title has text; each refusal names the first failing check |
| Tickets.CreateTicket | src/main/java/com/maintenance/maintenance/controller/TicketController.java:226-315 | a refused creation reports its reason; an accepted one returns a fresh ticket with status "a_faire", no comments, priority defaulting to "normale", description to "", and the looked-up machine, assignee and creator names |
| Tickets.UpdateKeepsIdentity | src/main/java/com/maintenance/maintenance/controller/TicketController.java:363-460 | an empty request changes nothing, and the id, enterprise, creator and creation date are never changed |
| Tickets.UpdateFieldRules | src/main/java/com/maintenance/maintenance/controller/TicketController.java:390-437 | title and priority change only to a value with text; description and category change whenever given |
| Tickets.UpdateClears | src/main/java/com/maintenance/maintenance/controller/TicketController.java:399-449 | a blank machine id clears the machine name, a blank assignee the assignee name, a blank due date the due date |
| Tickets.UpdateIdempotent | src/main/java/com/maintenance/maintenance/controller/TicketController.java:363-460 | submitting the same update twice with the same lookups gives what submitting it once gave |
| Tickets.UpdateTicket | src/main/java/com/maintenance/maintenance/controller/TicketController.java:363-460 | only a superadmin may update, a missing ticket is reported, a refused update changes nothing, an accepted one sets the details to `UpdatedDetails` and never touches status stamps or comments |
| Tickets.ChangeStatut | src/main/java/com/maintenance/maintenance/controller/TicketController.java:329-350 | a found ticket takes the new status through `setStatut`, nothing else changes; a missing one is reported |
| Tickets.ArchiveTicket | src/main/java/com/maintenance/maintenance/controller/TicketController.java:465-482 | a found ticket's stamps move as `setStatut("archive")` moves them: status "archive", modification time now, completion date kept, archive date set once and an earlier one kept; its details and comments are unchanged |
| Tickets.CommentGuard | src/main/java/com/maintenance/maintenance/controller/TicketController.java:614-695 | a comment is refused exactly when its text is blank and no image is sent |
| Tickets.AddCommentaireApi | src/main/java/com/maintenance/maintenance/controller/TicketController.java:599-679 | an empty comment, a missing ticket or a failed upload is refused and changes nothing; otherwise exactly one comment (with the uploaded image, if any) is appended and the modification time is now, while the status, completion and archive dates and the details stay |
| Tickets.AddCommentaireForm | src/main/java/com/maintenance/maintenance/controller/TicketController.java:681-744 | the same guard; a refusal leaves the comments and every stamp; a failed upload keeps the comment without its image; an accepted comment is appended once with the modification time now, while the status, completion and archive dates and the details stay |
| Users.JoursDistinct | src/main/java/com/maintenance/maintenance/controller/UserWebController.java:151 | the seven day names lundi..dimanche are pairwise distinct |
| Users.BuildDays | src/main/java/com/maintenance/maintenance/controller/UserWebController.java:154-172 | the creation loop stores exactly the given days, each with its start and end times as sent (or "") and active iff `actif_<day>` is "true" |
| Users.BuildHoraires | src/main/java/com/maintenance/maintenance/controller/UserWebController.java:150-172 | a new user's week has exactly the seven days, each built from the form as above |
| Users.CopyStoredDays | src/main/java/com/maintenance/maintenance/controller/UserWebController.java:365-381 | the update starts from a copy of every stored day, missing entries read as "" and inactive |
| Users.MergeDays | src/main/java/com/maintenance/maintenance/controller/UserWebController.java:383-431 | the merge loop leaves every stored day outside the given days as copied and merges each given day with the form |
| Users.MergeStart | src/main/java/com/maintenance/maintenance/controller/UserWebController.java:365-381 | the copied week satisfies the merge invariant over no day |
| Users.MergeStep | src/main/java/com/maintenance/maintenance/controller/UserWebController.java:386-430 | merging one more day extends the merge invariant to it |
| Users.MergeHoraires | src/main/java/com/maintenance/maintenance/controller/UserWebController.java:365-431 | the updated week holds every stored day plus the seven days; each of the seven keeps a start or end time unless the form sends one that is not blank, and its active flag is recomputed from the form |
| Users.MergedWeekUnique | src/main/java/com/maintenance/maintenance/controller/UserWebController.java:365-431 | the merge rule determines the stored week completely |
| Users.ResubmitStable | src/main/java/com/maintenance/maintenance/controller/UserWebController.java:365-442 | submitting the same edit form again to the week it produced stores the same week |
| Users.StoredRoundTrip | src/main/java/com/maintenance/maintenance/controller/UserWebController.java:365-442 | a day written by an update reads back as itself on the next update |
| Users.MergedDayTwice | src/main/java/com/maintenance/maintenance/controller/UserWebController.java:386-430 | merging the same form into a day twice changes it only once |
| Users.FreshIsMergedFromNothing | src/main/java/com/maintenance/maintenance/controller/UserWebController.java:150-431 | for a user without stored hours, creation and update store the same week whenever no time is sent as non-empty blanks |
| Users.BlankTimeDiffers | src/main/java/com/maintenance/maintenance/controller/UserWebController.java:163-411 | a start time sent as spaces is stored as spaces by a creation but ignored by an update |
| Users.BeforeAt | src/main/java/com/maintenance/maintenance/controller/UserWebController.java:179 | the part before the first '@' is a prefix of the address with no '@', followed by '@' or the end of the address |
| Users.NomUtilisateurOf | src/main/java/com/maintenance/maintenance/controller/UserWebController.java:179 | `email.split("@")[0]` fails exactly for a non-empty address made only of '@' |
| Users.NomUtilisateurIsLocalPart | src/main/java/com/maintenance/maintenance/controller/UserWebController.java:179 | the user name of `local@domain` with a non-empty local part without '@' is that local part |
| Users.LocalPartOf | src/main/java/com/maintenance/maintenance/controller/UserWebController.java:179 | the part before the first '@' of `local + rest`, with rest starting at '@', is `local` |
| Users.CreateUserAccepted | src/main/java/com/maintenance/maintenance/controller/UserWebController.java:104-141 | creation is accepted iff the caller's role is exactly "superadmin", name, first name, email and phone have text after trimming, the password has at least 6 characters, and the role is exactly "admin" or "technicien" |
| Users.CreateUser | src/main/java/com/maintenance/maintenance/controller/UserWebController.java:104-188 | a rejected creation reports the first failed check; a failed account creation or an '@'-only address fails; otherwise the record holds the account's uid, the form's fields, status "actif", the user name before '@' and the fresh week |
| Users.EditAccessRule | src/main/java/com/maintenance/maintenance/controller/UserWebController.java:225-326 | editing a found user is allowed iff the caller is superadmin, or edits their own profile and that profile is not a superadmin's |
| Users.NoRoleEscalation | src/main/java/com/maintenance/maintenance/controller/UserWebController.java:329-332 | when a non-superadmin's edit is accepted, the stored role is kept, so "superadmin" is never written by one |
| Users.UpdateUser | src/main/java/com/maintenance/maintenance/controller/UserWebController.java:276-465 | a refused edit reports the first failed check; an accepted one writes the form's fields, the effective role and the merged week, asks for a password change iff a non-blank password is sent (at least 6 characters) and an email change iff the email differs; an authentication failure writes nothing and reports only the password change already made, which happens only when the email update is the one that fails |
| Users.DeleteRule | src/main/java/com/maintenance/maintenance/controller/UserWebController.java:477-516 | deletion goes ahead iff the caller is exactly "superadmin", is not deleting themselves, the lookup did not fail, and the target is not a superadmin |
| Escalation.ParseCount | src/main/java/com/maintenance/maintenance/controller/AlertController.java:249-264 | the escalation count is read with `Integer.parseInt`, so a parsed count is a 32-bit value |
| Escalation.NombreRelancesRules | src/main/java/com/maintenance/maintenance/controller/AlertController.java:249-264 | with escalations off, or a count that does not parse, `nombreRelances` is 0; with them on, a printed `int` reads back as itself |
| Escalation.CreateCheck | src/main/java/com/maintenance/maintenance/controller/AlertController.java:191-294 | only a superadmin creates; a written alert has an enterprise, a found machine and the parsed date, escalations on iff the box says "on" or "true", the count as `NombreRelances`, no escalation sent yet, not verified and not mailed; the invalid-date refusal only arises for a date that did not parse (same rules in RappelController.java:228-331) |
| Escalation.UpdateCheck | src/main/java/com/maintenance/maintenance/controller/AlertController.java:297-365 | only a superadmin edits, and only a found record with a parsable date is written (same rules in RappelController.java:334-403) |
| Escalation.UpdateKeepsHistory | src/main/java/com/maintenance/maintenance/controller/AlertController.java:337-351 | an edit keeps the sent-escalation count (setting 0 only where it was null), sets the count to 0 when escalations are off, keeps the description unless one is sent, and leaves the machine, the mail marks and the verification alone (RappelController.java:374-388) |
| Escalation.VerifyCheck | src/main/java/com/maintenance/maintenance/controller/AlertController.java:397-465 | only a superadmin verifies; a found record is marked verified with the real check date now (RappelController.java:434-503) |
| Escalation.VerifyRecordsHistory | src/main/java/com/maintenance/maintenance/controller/AlertController.java:418-431 | the history entry copies machine id, machine name, description and scheduled date, has real-check and creation dates now, names the session's user, and the record's other parts are unchanged (RappelController.java:455-468) |
| Escalation.DeleteCheckRefusal | src/main/java/com/maintenance/maintenance/controller/AlertController.java:368-395 | deletion is refused exactly for a role other than superadmin (ignoring case) |
| Escalation.OnlySuperAdminChangesChecks | src/main/java/com/maintenance/maintenance/controller/AlertController.java:203-408 | create, update, verify and delete all refuse any role but superadmin before anything else |
| Escalation.ListReminders | src/main/java/com/maintenance/maintenance/controller/RappelController.java:164-188 | the list loop returns, in stored order, the reminders the view selects |
| Escalation.ShownMembers | src/main/java/com/maintenance/maintenance/controller/RappelController.java:164-188 | "historique" lists exactly the verified reminders, every other view exactly the unverified ones |
| Escalation.ViewsPartition | src/main/java/com/maintenance/maintenance/controller/RappelController.java:164-188 | the history view and the active view together hold every reminder exactly once |
| Escalation.EscalationCounts | src/main/java/com/maintenance/maintenance/service/AlertSchedulerService.java:69-83 | an escalation sets the sent count to 1 when it was null and to the old count plus one below the `int` maximum, and leaves the target, the verification, the configured count and the first-mail marks alone (RappelSchedulerService.java:95-99) |
| Escalation.UndeliveredUnchanged | src/main/java/com/maintenance/maintenance/service/AlertSchedulerService.java:36-58 | a record whose mail failed, or whose save failed, is left as it was, and the pass goes on (RappelSchedulerService.java:50-72) |
| Escalation.DeliveredMarked | src/main/java/com/maintenance/maintenance/service/AlertSchedulerService.java:38-50 | a record whose mail went out and was saved is stored marked sent, or escalated (RappelSchedulerService.java:50-63) |
| Escalation.NoRecipientNoChange | src/main/java/com/maintenance/maintenance/service/AlertSchedulerService.java:32-96 | when no superadmin address exists the lookup throws and the run changes no record |
| Escalation.CheckStore.constructor | src/main/java/com/maintenance/maintenance/service/AlertSchedulerService.java:30 | the store starts with the records it is given |
| Escalation.CheckStore.Round | src/main/java/com/maintenance/maintenance/service/AlertSchedulerService.java:36-58 | one pass leaves the store as `AfterRound` describes and hands the transport one mail per record with a scheduled date, in order |
| Escalation.CheckStore.Run | src/main/java/com/maintenance/maintenance/service/AlertSchedulerService.java:27-97 | the run applies the first mails then the escalations; the superadmin address is looked up only for a non-empty list; without an address no mail goes out (RappelSchedulerService.java:40-117) |
| Mailing.TitlesAreNotEscalations | src/main/java/com/maintenance/maintenance/service/EmailService.java:56-116 | neither plain title starts with "RELANCE - " |
| Mailing.EscalationPrefixRule | src/main/java/com/maintenance/maintenance/service/EmailService.java:38-116 | a subject starts with "RELANCE - " exactly for an escalation, and removing the prefix gives the plain subject |
| Mailing.GetSuperAdminEmail | src/main/java/com/maintenance/maintenance/service/EmailService.java:158-170 | the loop with early return gives the first qualifying address |
| Mailing.FirstSuperAdminEmailIsFirst | src/main/java/com/maintenance/maintenance/service/EmailService.java:158-170 | the search fails iff no user has role superadmin (ignoring case) and a non-empty email; otherwise it returns the email of the first such user in list order |
| Snapshots.ReadLongCases | src/main/java/com/maintenance/maintenance/service/FirebaseRealtimeService.java:1494-1509 | a number is read as is, a text as `Long.parseLong` of its trimmed form (so within the 64-bit range), anything else as null |
| Snapshots.ReadLongOfText | src/main/java/com/maintenance/maintenance/service/FirebaseRealtimeService.java:1499-1503 | a long stored as its decimal text, with blanks around it, reads back as that long |
| Snapshots.TrimAround | src/main/java/com/maintenance/maintenance/service/FirebaseRealtimeService.java:1500 | trimming removes exactly the blanks around a text that starts and ends visibly |
| Snapshots.ReadStringStable | src/main/java/com/maintenance/maintenance/service/FirebaseRealtimeService.java:1511-1518 | null reads as null; a text read is non-empty and already trimmed, and reading it again gives it back |
| Snapshots.ReadTrimmedText | src/main/java/com/maintenance/maintenance/service/FirebaseRealtimeService.java:1511-1518 | a non-empty trimmed text reads as itself |
| Snapshots.ReadFlagCases | src/main/java/com/maintenance/maintenance/service/FirebaseRealtimeService.java:1059-1066 | a boolean flag is read as is, null as the field's default, a text as "true" ignoring case, a number as false |
| Snapshots.InsertTextSorted | src/main/java/com/maintenance/maintenance/service/FirebaseRealtimeService.java:1139 | inserting a key into a sorted key list keeps it sorted and adds exactly that key |
| Snapshots.SortTexts | src/main/java/com/maintenance/maintenance/service/FirebaseRealtimeService.java:1139 | the key sort returns a sorted permutation of the keys |
| Snapshots.PhotosOfListMembers | src/main/java/com/maintenance/maintenance/service/FirebaseRealtimeService.java:1126-1131 | the photos of a list are exactly its non-blank strings |
| Snapshots.PhotosOfKeysMembers | src/main/java/com/maintenance/maintenance/service/FirebaseRealtimeService.java:1140-1145 | every photo from a map is the non-blank string stored under one of the keys |
| Snapshots.CollectListPhotos | src/main/java/com/maintenance/maintenance/service/FirebaseRealtimeService.java:1126-1131 | the list loop keeps the non-blank strings in order |
| Snapshots.CollectMapPhotos | src/main/java/com/maintenance/maintenance/service/FirebaseRealtimeService.java:1132-1145 | the map loop reads the values in ascending key order and keeps the non-blank strings |
| Snapshots.NormalisePhotos | src/main/java/com/maintenance/maintenance/service/FirebaseRealtimeService.java:1124-1149 | a list, a map in key order, or a single non-blank string becomes the photo list; anything else none |
| Snapshots.PhotosAreTexts | src/main/java/com/maintenance/maintenance/service/FirebaseRealtimeService.java:1124-1149 | every photo kept is a non-blank text |
| Snapshots.MapMachineSnapshot | src/main/java/com/maintenance/maintenance/service/FirebaseRealtimeService.java:1047-1171 | the setters in order build the machine `MachineOf` describes |
| Snapshots.DecodedFlags | src/main/java/com/maintenance/maintenance/service/FirebaseRealtimeService.java:1059-1122 | a decoded machine has every flag set; absent flags read as operational, not in repair, not a backup, not in the warehouse, not deleted |
| Snapshots.DecodedTexts | src/main/java/com/maintenance/maintenance/service/FirebaseRealtimeService.java:1049-1054 | ids come from the key and the parent; a stored text field is read as its text, an absent one as "" |
| Snapshots.CategoryIdOf | src/main/java/com/maintenance/maintenance/service/FirebaseRealtimeService.java:2290 | the category id `Math.abs((long) hashCode)` lies between 0 and 2^31 |
| Snapshots.LiveMachinesStep | src/main/java/com/maintenance/maintenance/service/FirebaseRealtimeService.java:842-849 | one more node adds its machine exactly when its key does not start with "_" and it is not deleted |
| Snapshots.GetMachinesForEnterprise | src/main/java/com/maintenance/maintenance/service/FirebaseRealtimeService.java:838-852 | the listener's loop lists the live machines in node order |
| Snapshots.LiveMachinesNotDeleted | src/main/java/com/maintenance/maintenance/service/FirebaseRealtimeService.java:844-849 | no listed machine is soft-deleted, and each has a key not starting with "_" |
| Snapshots.DeletedNodeSkipped | src/main/java/com/maintenance/maintenance/service/FirebaseRealtimeService.java:847-1122 | a node whose `supprime` is true or "true" is never listed |
| Snapshots.DeletedFlagRead | src/main/java/com/maintenance/maintenance/service/FirebaseRealtimeService.java:1115-1122 | a `supprime` child of true or "true" decodes as deleted |
| Snapshots.LiveMachinesOrigin | src/main/java/com/maintenance/maintenance/service/FirebaseRealtimeService.java:842-849 | every listed machine is the decoding of one node under that node's key |
| Snapshots.GetAllEnterprises | src/main/java/com/maintenance/maintenance/service/FirebaseRealtimeService.java:686-712 | the listener's loop builds one row per enterprise whose key does not start with "_", in order |
| Snapshots.EnterpriseAddress | src/main/java/com/maintenance/maintenance/service/FirebaseRealtimeService.java:694-712 | no field of a row is null; a node with `rue` keeps it; one with only the legacy `adresse` lists it as `rue` with empty postcode and city |
| Snapshots.EnterpriseRowsSkipReserved | src/main/java/com/maintenance/maintenance/service/FirebaseRealtimeService.java:690-691 | reserved keys such as "_empty" never give a row, and there are no more rows than nodes |
| Snapshots.UserUpdatesWrites | src/main/java/com/maintenance/maintenance/service/FirebaseRealtimeService.java:597-640 | only fields present in the input are written, with their input values; a "superadmin" role is never written; `numeroTelephone` is mirrored into `telephone` when that is absent |
| Snapshots.CategoryRoundTrip | src/main/java/com/maintenance/maintenance/service/FirebaseRealtimeService.java:2275-2324 | a serialized category reads back with the id from its key and its trimmed name and description, blank ones coming back null |
| Snapshots.CategoryRoundTripExact | src/main/java/com/maintenance/maintenance/service/FirebaseRealtimeService.java:2275-2324 | a category with trimmed non-empty fields reads back unchanged, but for its id |
| Enterprises.PageGuardRule | src/main/java/com/maintenance/maintenance/controller/EnterpriseController.java:101-194 | the list and create pages render iff the session's role is "superadmin" ignoring case (so "Superadmin" passes) |
| Enterprises.FormAcceptedIff | src/main/java/com/maintenance/maintenance/controller/EnterpriseController.java:237-406 | a form is accepted iff name and phone are not blank after trimming and the email is not blank and holds an '@'; the name check fails exactly for an all-blank name |
| Enterprises.NewFieldsTrimmed | src/main/java/com/maintenance/maintenance/controller/EnterpriseController.java:272-277 | create stores every field trimmed, always has name, email and phone, and leaves an address part null exactly when it was not posted |
| Enterprises.TrimmedOptional | src/main/java/com/maintenance/maintenance/controller/EnterpriseController.java:273-275 | trimming an optional part gives a trimmed text, and null stays null |
| Enterprises.CreateAndEditSendSameData | src/main/java/com/maintenance/maintenance/service/EnterpriseService.java:60-66 | the service's create sends the database the same six children as the edit handler sends for the same form (src/main/java/com/maintenance/maintenance/controller/EnterpriseController.java:411-416) |
| Enterprises.EditIdempotent | src/main/java/com/maintenance/maintenance/controller/EnterpriseController.java:411-416 | submitting the stored, already trimmed values again sends the same data |
| Enterprises.ForwardedAsWritten | src/main/java/com/maintenance/maintenance/service/FirebaseRealtimeService.java:1523-1536 | as written, the forwarded update holds exactly the posted `nom`, `adresse` and `numero` children, with their posted values |
| Enterprises.EditDropsAddressAndEmail | src/main/java/com/maintenance/maintenance/service/FirebaseRealtimeService.java:1523-1536 | as written, an edit leaves the street, postcode, city and email the node had, and adds no email where there was none |
| Enterprises.AsWrittenStores | src/main/java/com/maintenance/maintenance/service/FirebaseRealtimeService.java:1523-1536 | as written, sending the six children changes only the name and phone number of the node; street, postcode, city, email and every other child keep their old values |
| Enterprises.AsWrittenEditStores | src/main/java/com/maintenance/maintenance/controller/EnterpriseController.java:411-418 | an accepted edit, as written, leaves the node with the trimmed name and phone number and every other child as it was |
| Enterprises.AsWrittenUpdateStores | src/main/java/com/maintenance/maintenance/service/EnterpriseService.java:109-120 | the service's update, as written, leaves the node with the stored name and phone number ("" for null) and every other child as it was |
| Enterprises.EditDropsEmailExample | src/main/java/com/maintenance/maintenance/service/FirebaseRealtimeService.java:1523-1536 | the accepted form with email "@" leaves a stored email "old" in place |
| Enterprises.CorrectedEditStoresForm | src/main/java/com/maintenance/maintenance/controller/EnterpriseController.java:409-418 | corrected, after the edit the node holds every posted field trimmed (absent address parts as ""), and every other child is unchanged |
| Enterprises.CastText | src/main/java/com/maintenance/maintenance/service/EnterpriseService.java:170 | a `(String)` cast fails exactly for a value that is neither a text nor null |
| Enterprises.SyncMigratesLegacyAddress | src/main/java/com/maintenance/maintenance/service/EnterpriseService.java:180-193 | a record with `rue` keeps it; one with only the legacy `adresse` gets it as the street with empty postcode and city; one with neither gets three ""; a non-text `adresse` makes the cast fail |
| Enterprises.ListingMigratesBeforeSync | src/main/java/com/maintenance/maintenance/service/FirebaseRealtimeService.java:696-705 | every record the listing hands over has `rue`, and a legacy node still ends with its address as the street and an empty postcode and city |
| Enterprises.StepGrows | src/main/java/com/maintenance/maintenance/service/EnterpriseService.java:170-201 | one record keeps every row and adds at most one row under a fresh id, after which the record's id is present |
| Enterprises.SyncOnlyInserts | src/main/java/com/maintenance/maintenance/service/EnterpriseService.java:162-202 | a successful sync only inserts rows under fresh ids and leaves every record's Firebase id present |
| Enterprises.SyncOfPresentIsNoOp | src/main/java/com/maintenance/maintenance/service/EnterpriseService.java:173-175 | when every record's id is already in the table the sync changes nothing |
| Enterprises.SyncIdempotent | src/main/java/com/maintenance/maintenance/service/EnterpriseService.java:162-202 | a second sync of the same records, at any time, creates nothing |
| Enterprises.SyncPrefixStep | src/main/java/com/maintenance/maintenance/service/EnterpriseService.java:168-202 | the loop over one more record is one more step after the loop so far, and a failure stays a failure |
| Enterprises.SyncFailurePersists | src/main/java/com/maintenance/maintenance/service/EnterpriseService.java:16-202 | once a cast has failed, the whole transactional sync fails |
| Enterprises.CreatedNode | src/main/java/com/maintenance/maintenance/service/FirebaseRealtimeService.java:229-250 | the created node holds the six posted children and the creation instant |
| Enterprises.EditOutcomeRule | src/main/java/com/maintenance/maintenance/controller/EnterpriseController.java:393-427 | a refused form reports its first failing check; an accepted one is reported edited exactly when the database write succeeds |
| Enterprises.EnterpriseStore.constructor | src/main/java/com/maintenance/maintenance/service/EnterpriseService.java:17-26 | the store starts with no rows and no nodes |
| Enterprises.EnterpriseStore.Create | src/main/java/com/maintenance/maintenance/service/EnterpriseService.java:49-84 | the row is saved under a fresh id with both dates now; only a successful database write adds the node and gives the row its Firebase id |
| Enterprises.EnterpriseStore.Update | src/main/java/com/maintenance/maintenance/service/EnterpriseService.java:89-129 | an unknown id fails and changes nothing; otherwise the six fields and the modification date are saved, and only for a mirrored row whose push succeeds is the node merged with what `updateEnterprise` forwards (name and phone number only, see `Enterprises.AsWrittenUpdateStores`) |
| Enterprises.EnterpriseStore.Delete | src/main/java/com/maintenance/maintenance/service/EnterpriseService.java:135-157 | an unknown id fails and changes nothing; otherwise the row goes, and the node goes only for a mirrored row whose removal succeeds |
| Enterprises.EnterpriseStore.EditInDatabase | src/main/java/com/maintenance/maintenance/controller/EnterpriseController.java:366-433 | a refused form or a failed write leaves the nodes as they were; an edit merges into the node under that key what `updateEnterprise` forwards of the trimmed form (name and phone number only, see `Enterprises.AsWrittenEditStores`) |
| Enterprises.EnterpriseStore.Sync | src/main/java/com/maintenance/maintenance/service/EnterpriseService.java:162-202 | success leaves the table `SyncAll` gives; a failure rolls the table and the id counter back; the nodes are not touched |
| Roles.IsSuperAdminIgnoresCase | src/main/java/com/maintenance/maintenance/controller/AlertController.java:101 | the case-blind superadmin guard accepts exactly the roles equal to "superadmin" ignoring case, and rejects a missing role |
| Roles.NamesRoleIsEqualsIgnoreCase | src/main/java/com/maintenance/maintenance/controller/TicketController.java:233 | comparing a lower-cased role with a lower-case name is `equalsIgnoreCase` |
| Roles.ExactGuardIsStricter | src/main/java/com/maintenance/maintenance/controller/UserWebController.java:34 | the exact `"superadmin".equals(role)` guard implies the case-blind one, and "Superadmin" passes only the case-blind one |
| Ordering.NameLeqTotal | src/main/java/com/maintenance/maintenance/service/StockService.java:76-80 | the name comparator orders any two entries one way or the other |
| Ordering.NameLeqTrans | src/main/java/com/maintenance/maintenance/service/StockService.java:76-80 | the name order is transitive, so sorting by it is well defined (src/main/java/com/maintenance/maintenance/service/CategoryService.java:36-40) |
| Ordering.NamedFirst | src/main/java/com/maintenance/maintenance/service/StockService.java:77-78 | an entry without a name sorts after every named one |
| Ordering.InsertBy | src/main/java/com/maintenance/maintenance/service/StockService.java:76-80 | one insertion keeps a sorted list sorted and adds exactly the new entry |
| Ordering.SortBy | src/main/java/com/maintenance/maintenance/service/StockService.java:76-80 | the list sort returns a sorted permutation of its input, named entries by name ignoring case, unnamed ones last (src/main/java/com/maintenance/maintenance/service/CategoryService.java:35-41) |
| Categories.NormalizeRule | src/main/java/com/maintenance/maintenance/service/CategoryService.java:316-319 | normalising keeps the id and the nulls, trims name and description, and is idempotent |
| Categories.FindAll | src/main/java/com/maintenance/maintenance/service/CategoryService.java:30-47 | with the database list the result is that list sorted by name ignoring case (unnamed last) and a permutation of it; when the read throws, the JPA list by name is returned unchanged |
| Categories.SortedNamedFirst | src/main/java/com/maintenance/maintenance/service/CategoryService.java:35-41 | in the sorted listing no named category follows an unnamed one |
| Categories.FirstWithIdIsFirst | src/main/java/com/maintenance/maintenance/service/CategoryService.java:54-57 | the lookup fails iff no category has the id; otherwise it returns one with the id and no earlier category has it |
| Categories.GetCategory | src/main/java/com/maintenance/maintenance/service/CategoryService.java:50-75 | the first database category with the id wins; without one, or when the read throws, the JPA row is returned, and an error when JPA has none either |
| Categories.CreateNormalizedBlank | src/main/java/com/maintenance/maintenance/service/CategoryService.java:88-95 | after normalising, the create is refused as blank exactly when the name is null or empty |
| Categories.NormalizedBlankIff | src/main/java/com/maintenance/maintenance/service/CategoryService.java:316-319 | the normalised name is empty exactly when the raw name is null or only blanks |
| Categories.CreateBlankIff | src/main/java/com/maintenance/maintenance/service/CategoryService.java:84-95 | a create is refused as blank exactly when the posted name is null or only blanks |
| Categories.CreateNeverDuplicates | src/main/java/com/maintenance/maintenance/service/CategoryService.java:118-126 | a create that goes through never reuses, ignoring case, the name of a category the database holds |
| Categories.CreateNormalizedStores | src/main/java/com/maintenance/maintenance/service/CategoryService.java:127-162 | the JPA fallback row and the unread database copy carry the normalised name and description |
| Categories.CreateStoresTrimmed | src/main/java/com/maintenance/maintenance/service/CategoryService.java:84-164 | whatever the create stores carries the trimmed name and description, JPA adding its id |
| Categories.UpdateCategoryRules | src/main/java/com/maintenance/maintenance/service/CategoryService.java:167-226 | with the database list, an update is refused as a duplicate exactly when another id has the new trimmed name ignoring case; keeping one's own name is never a duplicate; an accepted update keeps the row's id and stores the trimmed texts |
| Categories.DeleteCategory | src/main/java/com/maintenance/maintenance/service/CategoryService.java:229-259 | deletion succeeds iff the id exists, and removes exactly that row |
| Categories.OwnershipRule | src/main/java/com/maintenance/maintenance/service/CategoryService.java:278-310 | a sub-category of another category is refused for update and delete, and only the sub-category itself changes |
| Categories.RenameToSameNameAllowed | src/main/java/com/maintenance/maintenance/service/CategoryService.java:288-289 | keeping a sub-category's current name, in any case, is never a duplicate |
| Categories.CreateSubKeepsNamesUnique | src/main/java/com/maintenance/maintenance/service/CategoryService.java:263-276 | creating a sub-category keeps names unique within each category, ignoring case |
| Categories.UpdateSubKeepsNamesUnique | src/main/java/com/maintenance/maintenance/service/CategoryService.java:278-298 | renaming a sub-category keeps names unique within each category, ignoring case |
| Counters.CountMonotone | src/main/java/com/maintenance/maintenance/controller/DashboardController.java:146-151 | counting a weaker condition never gives less, so urgent open tickets never outnumber open ones |
| Counters.CountPartition | src/main/java/com/maintenance/maintenance/controller/RapportsController.java:189-195 | when each record meets exactly one of three conditions, the three counts add up to the number of records |
| Counters.Increment | src/main/java/com/maintenance/maintenance/service/ComponentService.java:38 | `put(k, getOrDefault(k, 0) + 1)` adds `k` with its count one higher and leaves every other key's count alone |
| Counters.TallySnoc | src/main/java/com/maintenance/maintenance/service/ComponentService.java:30-39 | one more key raises that key's count by one |
| Counters.TallyCounts | src/main/java/com/maintenance/maintenance/service/ComponentService.java:30-39 | the histogram holds exactly the keys that occur, each mapped to its number of occurrences |
| Counters.TallySum | src/main/java/com/maintenance/maintenance/controller/RapportsController.java:159-167 | the counts of a histogram add up to the number of keys counted |
| Counters.CountStep | src/main/java/com/maintenance/maintenance/service/ComponentService.java:31-38 | one more component raises its machine's count by one exactly when it is attached |
| Counters.CountComponentsByMachine | src/main/java/com/maintenance/maintenance/service/ComponentService.java:24-41 | a null list gives an empty map; otherwise the loop builds the histogram of the attached components' machine ids |
| Counters.ComponentCountsRule | src/main/java/com/maintenance/maintenance/service/ComponentService.java:24-41 | the keys are exactly the machine ids of attached (non-null, non-blank machine id) components, each mapped to its number of components, and the counts add up to the number of attached components |
| Counters.CountOpen | src/main/java/com/maintenance/maintenance/controller/DashboardController.java:143-154 | the loop counts the open tickets ("a_faire" or "en_cours") and the open urgent ones |
| Counters.CountPending | src/main/java/com/maintenance/maintenance/controller/DashboardController.java:163-169 | the loop counts the records whose `verifie` is null or false |
| Counters.CalculateStatistics | src/main/java/com/maintenance/maintenance/controller/DashboardController.java:117-211 | a blank enterprise id gives all zeros; otherwise machines and history are list sizes, open and urgent tickets are counted, pending checks are the unverified records, pending maintenance is their sum, active repairs stay 0, and urgent ≤ open ≤ tickets |
| Counters.MonthsBack | src/main/java/com/maintenance/maintenance/controller/RapportsController.java:126-128 | going back k months gives a valid month whose index is k lower |
| Counters.LastSixMonthsRule | src/main/java/com/maintenance/maintenance/controller/RapportsController.java:123-133 | the report months end with the current month, each following the one before, so they are in order and distinct |
| Counters.SameIndexSameMonth | src/main/java/com/maintenance/maintenance/controller/RapportsController.java:128 | a valid month is determined by its index, so month keys do not collide |
| Counters.AddMonthlySnoc | src/main/java/com/maintenance/maintenance/controller/RapportsController.java:169-176 | one more record adds one to its creation month when that is a report month |
| Counters.TallyTickets | src/main/java/com/maintenance/maintenance/controller/RapportsController.java:158-178 | the ticket loop builds the status and priority histograms and adds each ticket to its creation month |
| Counters.TicketStep | src/main/java/com/maintenance/maintenance/controller/RapportsController.java:159-176 | counting ticket i extends the status, priority and monthly counts of the tickets before it |
| Counters.TallyChecks | src/main/java/com/maintenance/maintenance/controller/RapportsController.java:187-207 | the alert or reminder loop counts verified, else sent, else unsent records, and adds each to its creation month |
| Counters.CountMachines | src/main/java/com/maintenance/maintenance/controller/RapportsController.java:139-149 | the machine loop counts the operational machines and the machines in repair |
| Counters.ZeroMonths | src/main/java/com/maintenance/maintenance/controller/RapportsController.java:125-133 | the monthly map starts with exactly the report months, each at zero |
| Counters.ReportMonths | src/main/java/com/maintenance/maintenance/controller/RapportsController.java:169-234 | after the three passes each report month holds the number of tickets, reminders and alerts created in it |
| Counters.CalculateReportData | src/main/java/com/maintenance/maintenance/controller/RapportsController.java:94-251 | a blank enterprise id gives no data; otherwise the machine counters, both ticket histograms, the alert and reminder buckets, and the six months each with the records created in it |
| Counters.ReportTotals | src/main/java/com/maintenance/maintenance/controller/RapportsController.java:102-248 | each ticket histogram adds up to the number of tickets, each alert or reminder falls in exactly one bucket, and the machine counters never exceed the machine total |
| Counters.NullStatusCountsAsAFaire | src/main/java/com/maintenance/maintenance/controller/RapportsController.java:161 | a ticket with a null stored status is counted under "a_faire" (the getter's default), so the "unknown" key appears only for a ticket whose status is literally "unknown" |
| CalendarDates.YearStartClosed | src/main/resources/static/js/script.js:3793-3794 | January 1st of year y is 365 days a year from 1970 plus one per leap year in between, the Gregorian rule |
| CalendarDates.Ordinal | src/main/resources/static/js/script.js:3794-3795 | a valid date lies within its year, at its ordinal offset from January 1st |
| CalendarDates.WeekdayShift | src/main/resources/static/js/script.js:3708 | moving k days moves `getDay()` k places round the week |
| CalendarDates.SundayOnOrBefore | src/main/resources/static/js/script.js:3705-3708 | stepping back `getDay()` days from a date lands on a Sunday |
| CalendarDates.NextDay | src/main/resources/static/js/script.js:3713 | `setDate(getDate() + 1)` gives a valid date |
| CalendarDates.NextDayToDays | src/main/resources/static/js/script.js:3713-3828 | the next date is exactly one day later, across month and year ends |
| CalendarDates.PrevDayToDays | src/main/resources/static/js/script.js:3826 | the previous date is exactly one day earlier |
| CalendarDates.MonthTurn | src/main/resources/static/js/script.js:3713 | the first of the next month follows the last day of the month |
| CalendarDates.YearTurn | src/main/resources/static/js/script.js:3713 | January 1st follows December 31st |
| CalendarDates.DaysAhead | src/main/resources/static/js/script.js:3711-3713 | the date k days after a date is valid and k days later |
| CalendarDates.DaysBack | src/main/resources/static/js/script.js:3707-3708 | the date k days before a date is valid and k days earlier |
| CalendarDates.GridStart | src/main/resources/static/js/script.js:3705-3708 | the month grid starts on the Sunday on or before the first of the month, that first's weekday number of days earlier |
| CalendarDates.ToDaysInjective | src/main/resources/static/js/script.js:3719 | different valid dates have different day numbers |
| CalendarDates.IsoDayNum | src/main/resources/static/js/script.js:3792 | `getUTCDay()` with Sunday read as 7 numbers the days Monday 1 to Sunday 7 |
| CalendarDates.WeekThursday | src/main/resources/static/js/script.js:3793 | the shifted date is the Thursday of the date's Monday-to-Sunday week, at most 3 days away |
| CalendarDates.InYearUnique | src/main/resources/static/js/script.js:3794 | a day belongs to exactly one year |
| CalendarDates.ThursdayYear | src/main/resources/static/js/script.js:3794 | the year read after the shift is the Thursday's year, within one of the date's own |
| CalendarDates.WeekNumber | src/main/resources/static/js/script.js:3790-3796 | the week number lies between 1 and 53 |
| CalendarDates.SameWeekSameNumber | src/main/resources/static/js/script.js:3790-3796 | two dates of the same Monday-to-Sunday week get the same number |
| CalendarDates.WeekNumberIn | src/main/resources/static/js/script.js:3794-3795 | the week number is the Thursday's 7-day block in its year, counted from 1 |
| CalendarDates.January4thIsWeekOne | src/main/resources/static/js/script.js:3790-3796 | January 4th is always in week 1, as ISO 8601 defines week 1 |
| CalendarDates.December28thIsLastWeek | src/main/resources/static/js/script.js:3790-3796 | December 28th is always in week 52 or 53, the last ISO week of its year |
| CalendarDates.IsoDate | src/main/resources/static/js/script.js:3719 | a four-digit year gives a ten-character `YYYY-MM-DD` text with dashes at positions 4 and 7 |
| CalendarDates.IsoDateRoundTrip | src/main/resources/static/js/script.js:3536-3719 | reading the year, month and day digits back out of the text gives the date |
| CalendarDates.IsoDateInjective | src/main/resources/static/js/script.js:3536-3542 | different dates give different texts, so comparing texts compares dates |
| CalendarView.TypeNameInjective | src/main/resources/static/js/script.js:3627-3671 | each type text names one type only, so the filter comparison and the `type`, `color` and `priority` texts keyed by the text are keyed by the type |
| CalendarView.FindUser | src/main/resources/static/js/script.js:3632 | `users.find` returns the first user in the list with that id, and fails only when no user has it |
| CalendarView.GetEventsForDate | src/main/resources/static/js/script.js:3534-3682 | the six passes push, in the script's source order, exactly the events `EventsForDate` lists |
| CalendarView.PushMaintenances | src/main/resources/static/js/script.js:3539-3555 | the maintenance loop pushes one event per maintenance dated that day and matching the user filter, in order |
| CalendarView.PushRepairs | src/main/resources/static/js/script.js:3558-3574 | the repair loop pushes one event per repair dated that day and matching the user filter, in order |
| CalendarView.PushTickets | src/main/resources/static/js/script.js:3577-3595 | the ticket loop pushes one event per ticket due that day and matching the user filter, in order |
| CalendarView.PushHolidays | src/main/resources/static/js/script.js:3598-3610 | the holiday loop pushes one event per holiday on that day, whatever the user filter |
| CalendarView.PushSchedules | src/main/resources/static/js/script.js:3627-3679 | the schedule loop pushes one event per schedule on that day matching the user and type filters, in order |
| CalendarView.WeekendEventIff | src/main/resources/static/js/script.js:3613-3624 | a weekend event appears exactly on Saturdays and Sundays, titled "Samedi" or "Dimanche" |
| CalendarView.UserFilterOnlyRemoves | src/main/resources/static/js/script.js:3544-3630 | selecting one user only removes events: every event shown for a user is shown under "all" |
| CalendarView.HolidaysIgnoreUser | src/main/resources/static/js/script.js:3598-3610 | holiday events depend only on the date, not on the user filter |
| CalendarView.SelectedUserMissesNumericIds | src/main/resources/static/js/script.js:3544-3630 | with a user selected by its text id, records carrying numeric ids give no maintenance, repair, ticket or schedule event: only holidays and weekends remain |
| CalendarView.OfTypeMembers | src/main/resources/static/js/script.js:3539-3631 | keeping one type keeps exactly the events of that type |
| CalendarView.TypeFilterIsExact | src/main/resources/static/js/script.js:3539-3679 | under a one-type filter every event returned has that type |
| CalendarView.TypeFilterSelects | src/main/resources/static/js/script.js:3534-3682 | for a listed type (every schedule having a type the planning form offers), the filter shows exactly the events of that type that "all" shows, in the same order |
| CalendarView.OtherSchedulesOnlyUnderAll | src/main/resources/static/js/script.js:3627 | schedules of type 'other' show under "all" but no filter shows them, since 'other' is missing from the whitelist |
| CalendarView.OtherFilterShowsNothing | src/main/resources/static/js/script.js:3627 | the 'other' filter shows no event at all |
| CalendarView.ScheduleTitleShape | src/main/resources/static/js/script.js:3648-3653 | a schedule's title is "<label>: <name>", with " (start-end)" only when both times are set |
| CalendarView.TypeLabelCoversKinds | src/main/resources/static/js/script.js:3633-3648 | every type the planning form offers has its own label; only an unlisted type falls back to "Événement" |
| CalendarView.UserColorFixed | src/main/resources/static/js/script.js:3656-3662 | only the numeric ids 1 to 4 get their own colour; every other id, the text "1" included, is grey |
| CalendarView.MonthGrid | src/main/resources/static/js/script.js:3704-3754 | the 42-cell loop builds the cells `MonthCells` describes |
| CalendarView.MonthCellsShape | src/main/resources/static/js/script.js:3705-3754 | the grid has 42 cells, starts on a Sunday, shows consecutive days, and each cell's flags are those of its own date |
| CalendarView.MonthFitsGrid | src/main/resources/static/js/script.js:3705-3713 | every day of the month is in the grid, at the first's weekday plus the day minus one |
| CalendarView.AlternanceSkipsRestDays | src/main/resources/static/js/script.js:3748-3752 | weekends and holidays never carry an alternating mark |
| CalendarView.AlternanceCoversFortnight | src/main/resources/static/js/script.js:3745-3746 | over an odd week and the following even week, each weekday Monday to Friday is a working day exactly once |
| CalendarView.ParityRepeatsAfterWeek53 | src/main/resources/static/js/script.js:3744-3746 | after a 53-week year the week parity does not alternate: week 53 and the following week 1 are both odd |
| CalendarView.NewYear2021 | src/main/resources/static/js/script.js:3744 | 2021 began on a Friday, so 2020 is such a 53-week year |
| TenantStore.EmptyDataset | src/main/resources/static/js/script.js:289-300 | the empty dataset holds all twelve collections, each empty |
| TenantStore.Fill | src/main/resources/static/js/script.js:245-258 | a missing field read as empty: the loaded dataset holds all twelve collections, a stored one as stored and a missing one as empty |
| TenantStore.FillSaved | src/main/resources/static/js/script.js:217-258 | loading a saved dataset gives the collections back unchanged |
| TenantStore.FillMissingIsEmpty | src/main/resources/static/js/script.js:245-258 | a collection missing from a stored dataset loads as empty |
| TenantStore.FindEnterprise | src/main/resources/static/js/script.js:148 | `find` returns the first enterprise with that id, and fails iff none has it |
| TenantStore.DefaultEnterprise | src/main/resources/static/js/script.js:88-90 | the default enterprise is the first entry flagged default when there is one, and the first entry otherwise |
| TenantStore.ClientStore.constructor | src/main/resources/static/js/script.js:1-20 | on load no user and no enterprise is selected and every collection is empty |
| TenantStore.ClientStore.SaveCurrentEnterpriseData | src/main/resources/static/js/script.js:217-236 | the current dataset is stored under the current enterprise's id, and nothing else changes; without a current enterprise nothing is stored |
| TenantStore.ClientStore.InitializeDefaultDataForEnterprise | src/main/resources/static/js/script.js:271-301 | the collections become shallow copies of the demo data (fresh arrays holding the demo records), or twelve empty lists |
| TenantStore.ClientStore.LoadDataForEnterprise | src/main/resources/static/js/script.js:239-268 | the current enterprise's stored dataset is loaded (missing fields empty), or the defaults seeded, and then saved back under its id |
| TenantStore.ClientStore.SwitchEnterprise | src/main/resources/static/js/script.js:146-172 | an unknown id changes nothing; otherwise the outgoing dataset is saved under its own id, the enterprise becomes current and remembered, and the incoming dataset is loaded or seeded |
| TenantStore.ClientStore.LoadEnterprises | src/main/resources/static/js/script.js:64-91 | the stored list, or the one sample enterprise, becomes the list and is stored; with nothing selected the stored or default enterprise becomes current |
| TenantStore.ClientStore.CheckLogin | src/main/resources/static/js/script.js:22-62 | without a stored user nothing changes and the login fails; otherwise the user is set, an enterprise is always selected, and its dataset is stored |
| ClientRules.GetStockStatus | src/main/resources/static/js/script.js:4054-4058 | out of stock exactly at zero, low stock exactly when non-zero and at or under the threshold, in stock exactly above it |
| ClientRules.RestockKeepsInStock | src/main/resources/static/js/script.js:4054-4058 | adding stock to an item in stock leaves it in stock |
| ClientRules.WithoutCategory | src/main/resources/static/js/script.js:1854 | the filter keeps exactly the categories whose id differs, and keeps the list whole when none has the id |
| ClientRules.WithoutChildrenOf | src/main/resources/static/js/script.js:1855 | the filter keeps exactly the sub-categories whose parent id is not strictly equal to the id |
| ClientRules.DeleteCategory | src/main/resources/static/js/script.js:1852-1861 | unconfirmed, nothing changes; confirmed, exactly the category and its strictly matching sub-categories go |
| ClientRules.CascadeIsStrict | src/main/resources/static/js/script.js:1855 | with parent ids stored as text, deleting a category by its numeric id removes no sub-category |
| ClientRules.TicketNumber | src/main/resources/static/js/script.js:4239 | a ticket number is "TKT-" followed by the digits of the list length plus one, at least three of them |
| ClientRules.TicketNumberInjective | src/main/resources/static/js/script.js:4239 | different list lengths give different numbers |
| ClientRules.NumberRepeatsAfterRemoval | src/main/resources/static/js/script.js:4239 | after a ticket is removed from a list numbered in order, the next number is the last ticket's number, and that ticket is still in the list |
| ClientRules.TicketIndex | src/main/resources/static/js/script.js:4424 | `findIndex` returns the first index holding the id, and fails iff no ticket has it |
| ClientRules.WithStatus | src/main/resources/static/js/script.js:4428-4437 | the ticket gets the new status and update time, a resolved or closed stamp only for those statuses, and nothing else changes |
| ClientRules.TicketBoard.constructor | src/main/resources/static/js/script.js:17 | the board starts with the given tickets |
| ClientRules.TicketBoard.AddTicket | src/main/resources/static/js/script.js:4236-4262 | a new open ticket, numbered after the list length and stamped now, is appended |
| ClientRules.TicketBoard.UpdateTicketStatus | src/main/resources/static/js/script.js:4423-4444 | an unknown id changes nothing; otherwise only that ticket changes, to `WithStatus` |
| ClientRules.RepairIndex | src/main/resources/static/js/script.js:2906 | `findIndex` returns the first index holding the id, and fails iff no repair has it |
| ClientRules.Started | src/main/resources/static/js/script.js:2905-2916 | an unknown id changes nothing; otherwise only that repair changes, to in progress with its start time, whatever its status was |
| ClientRules.Cancelled | src/main/resources/static/js/script.js:3005-3018 | an unknown id changes nothing; otherwise only that repair changes, to cancelled with its completion time now |
| ClientRules.Completed | src/main/resources/static/js/script.js:2918-2953 | an unknown id changes nothing; otherwise only that repair changes, to completed now with the cost, duration and notes entered, and every other field of it (id, machine, title, technician, start) is kept |
| ClientRules.RepairBoard.constructor | src/main/resources/static/js/script.js:10-11 | the board starts with the given repairs and history |
| ClientRules.RepairBoard.StartRepair | src/main/resources/static/js/script.js:2905-2916 | the repairs become `Started`; the history is unchanged |
| ClientRules.RepairBoard.CompleteRepair | src/main/resources/static/js/script.js:2918-2953 | a dismissed prompt or an unknown id changes nothing; otherwise the repair is completed and one history entry is put at the front |
| ClientRules.RepairBoard.CancelRepair | src/main/resources/static/js/script.js:3005-3018 | only a confirmed cancel changes the repairs; the history never changes |
| ClientRules.LifecycleNotEnforced | src/main/resources/static/js/script.js:2905-2953 | no transition is refused: a completed or cancelled repair can be started again, and one never started can be completed |
| MediaStorage.SplitJoin | src/main/java/com/maintenance/maintenance/service/LocalFileStorageService.java:59 | splitting a path text at a '/' between two texts splits each of them, so `Paths.get("image", e, m)` is the names of "image/e/m" |
| MediaStorage.NormalizeConcat | src/main/java/com/maintenance/maintenance/service/LocalFileStorageService.java:59-86 | normalising name by name: resolving a + b is resolving b after a |
| MediaStorage.NoDotDotStaysUnder | src/main/java/com/maintenance/maintenance/service/LocalFileStorageService.java:86-92 | without a ".." name, resolving never leaves the directory |
| MediaStorage.Extension | src/main/java/com/maintenance/maintenance/service/LocalFileStorageService.java:79-83 | the extension is empty iff the name has no '.', and otherwise is the name's suffix from its last '.' |
| MediaStorage.Decisions | src/main/java/com/maintenance/maintenance/service/LocalFileStorageService.java:69-106 | each file's fate is decided on its own, in order: skipped when null, empty, escaping or failing to copy, otherwise its URL |
| MediaStorage.SaveMachinePhotos | src/main/java/com/maintenance/maintenance/service/LocalFileStorageService.java:52-110 | no files or no room gives no URL; an image directory outside the root is an error; otherwise the loop returns the first `maxUploads` URLs of the stored files, in file order |
| MediaStorage.CappedStep | src/main/java/com/maintenance/maintenance/service/LocalFileStorageService.java:70-100 | one turn of the loop keeps the URLs so far followed by those still to come equal to the result, never more than the cap |
| MediaStorage.CappedBound | src/main/java/com/maintenance/maintenance/service/LocalFileStorageService.java:70-72 | at most the cap of URLs, and never more than there are files |
| MediaStorage.SavedUrlsBound | src/main/java/com/maintenance/maintenance/service/LocalFileStorageService.java:52-110 | at most `maxUploads` URLs come back, and never more than there were files |
| MediaStorage.SavedUrlsAreStoredFiles | src/main/java/com/maintenance/maintenance/service/LocalFileStorageService.java:73-100 | every URL returned is that of a non-empty file whose copy succeeded |
| MediaStorage.DotDotIdsRejected | src/main/java/com/maintenance/maintenance/service/LocalFileStorageService.java:59-64 | with ".." as enterprise and machine id the image directory is the root's parent, which the check rejects |
| MediaStorage.DeletePhoto | src/main/java/com/maintenance/maintenance/service/LocalFileStorageService.java:112-125 | a blank URL or one outside "/media/" is ignored, and exactly those; a file deleted always lies under the root |
| MediaStorage.DeleteFindsSavedPhoto | src/main/java/com/maintenance/maintenance/service/LocalFileStorageService.java:99-124 | the URL a photo is served under, handed back to `deletePhoto`, deletes the very file that was written (no backslashes, relative name) |
| MediaStorage.ServedUrlShape | src/main/java/com/maintenance/maintenance/service/LocalFileStorageService.java:99 | without backslashes the served URL is "/media/" followed by the relative path, and has text |
| MediaStorage.RelativePartResolves | src/main/java/com/maintenance/maintenance/service/LocalFileStorageService.java:117-118 | the relative part of the URL resolves under the root to the file written in the image directory |
| Forms.ToStock | src/main/java/com/maintenance/maintenance/model/dto/StockForm.java:19-32 | the six texts are set trimmed (null as ""), the machine id trimmed and null only when absent, a missing quantity 0, price and threshold passed through, and no stock or enterprise id copied |
| Forms.TrimOnce | src/main/java/com/maintenance/maintenance/model/dto/StockForm.java:21-30 | trimming an already trimmed text changes nothing |
| Forms.ToStockIdempotent | src/main/java/com/maintenance/maintenance/model/dto/StockForm.java:19-32 | submitting the unchanged edit form of a converted stock gives the same stock |
| Forms.ToComponent | src/main/java/com/maintenance/maintenance/model/dto/ComponentForm.java:21-34 | ids and category are copied, the three texts trimmed (null as ""), a null state read as "fonctionnel", and the photo list copied |
| Forms.SetPhotos | src/main/java/com/maintenance/maintenance/model/dto/ComponentForm.java:112-114 | a null photo list becomes empty, any other is copied, and nothing else changes |
| Forms.ToComponentIdempotent | src/main/java/com/maintenance/maintenance/model/dto/ComponentForm.java:21-34 | submitting the unchanged edit form of a converted component gives the same component |
| Roles.SuperAdminIsLowerCase | src/main/java/com/maintenance/maintenance/controller/AlertController.java:101 | the superadmin role name is its own lower case, so lower-casing the role and comparing is a case-blind test |
| Roles.TicketGuardRule | src/main/java/com/maintenance/maintenance/controller/TicketController.java:231-236 | the ticket-creation guard admits exactly the roles equal to "superadmin" or "technicien" ignoring case |
| Roles.AdminMayNotCreateTicket | src/main/java/com/maintenance/maintenance/controller/TicketController.java:231-236 | an admin, whatever the case of its role, is refused ticket creation |
| Roles.TechnicienIsLowerCase | src/main/java/com/maintenance/maintenance/controller/TicketController.java:232 | the technician role name is its own lower case, so lower-casing the role and comparing is a case-blind test |
| Snapshots.Child | src/main/java/com/maintenance/maintenance/service/FirebaseRealtimeService.java:1051-1054 | a child of a value that is not a map reads as null |
| Snapshots.Lookup | src/main/java/com/maintenance/maintenance/service/FirebaseRealtimeService.java:1051-1054 | a non-null child read is an entry stored under that key |
| StockPerCategory.KeyedAfterMachines | src/main/java/com/maintenance/maintenance/service/StockService.java:49-66 | the machine loop keeps every entry filed under its own category id |
| StockPerCategory.DistinctIdsAfterSort | src/main/java/com/maintenance/maintenance/service/StockService.java:76-80 | sorting a list whose category ids differ keeps them pairwise different |
| Machines.CustomFieldsStep | src/main/java/com/maintenance/maintenance/controller/MachineController.java:1104-1117 | one more name/value pair: the map of the longer prefix is the previous map with that pair applied |
| Machines.RetireOne | src/main/java/com/maintenance/maintenance/controller/MachineController.java:774-800 | retiring one more backup (other than the chosen one) keeps the promotion loop's invariant |
| Machines.PromotedStoreIs | src/main/java/com/maintenance/maintenance/controller/MachineController.java:735-814 | the store the loop's writes leave, with the principal retired, is the promoted store |
| Enterprises.ExampleFormAccepted | src/main/java/com/maintenance/maintenance/controller/EnterpriseController.java:393-406 | the form with name "A", email "@" and phone "1" passes every check |
| Enterprises.MergeChildrenOf | src/main/java/com/maintenance/maintenance/service/FirebaseRealtimeService.java:1523-1536 | merging children sets each child sent and leaves every other child as it was |
| Counters.LastSixMonths | src/main/java/com/maintenance/maintenance/controller/RapportsController.java:123-133 | the report covers six months |
| Counters.AttachedIdsMembers | src/main/java/com/maintenance/maintenance/service/ComponentService.java:24-41 | an id is listed exactly when some attached component names it |
| CalendarDates.DaysInMonth | src/main/resources/static/js/script.js:3705-3713 | a month has between 28 and 31 days |
| CalendarDates.Weekday | src/main/resources/static/js/script.js:3614-3718 | `getDay()` is between 0 (Sunday) and 6 |
| CalendarDates.PrevDay | src/main/resources/static/js/script.js:3826 | stepping back a day from a valid date gives a valid date |
| CalendarView.GridCells | src/main/resources/static/js/script.js:3711-3754 | n cells, the k-th being the cell of the date k days after the start |
| CalendarView.Week53 | src/main/resources/static/js/script.js:3741-3753 | when the next year starts on a Friday, December 28th is in week 53 |
| CalendarView.NewYearWeekGap | src/main/resources/static/js/script.js:3741-3753 | January 4th of the next year is seven days after December 28th |
| CalendarView.FixedSourcesFiltered | src/main/resources/static/js/script.js:3539-3624 | keeping one type of the maintenance, repair, ticket, holiday and weekend events is what that type's filter shows of each |
| CalendarView.WeekendFiltered | src/main/resources/static/js/script.js:3613-3624 | keeping one type of the weekend events is what that type's filter shows |
| CalendarView.SchedulesFiltered | src/main/resources/static/js/script.js:3627-3679 | keeping one listed type of the schedule events is what that type's filter shows of them |

## Left out

- I/O and plumbing. Rendering, the DOM, Chart.js, timers, `fetch`, Firebase listeners, futures and latches, JPA and Spring wiring, REST sign-in, security filters, configuration and startup jobs are not modelled. The handlers' reads and writes are parameters or maps.
- Clocks, UUIDs and outcomes. "Now", UUIDs, the result of a database write or a file copy, and whether a mail send throws are parameters.
- Timezones and locales. Dates are day numbers in one fixed zone. `toISOString` is the `YYYY-MM-DD` text of that day, and `toLocaleDateString` and `SimpleDateFormat` layouts are not modelled.
- Floating point. Prices (`prixUnitaire`) are carried unchanged as `real`. Firebase doubles, `readDouble`, repair cost and duration sums and `parseFloat` are not modelled.
- Unicode. Trimming, whitespace and case folding cover ASCII only, which is what the handled names and roles use.
- `HashMap` order. Where the source iterates a `HashMap` or a database map, the model takes the order as given (a sequence or an input), and the results are proved for every order.
- `StringUtils.cleanPath` and Windows separators. Upload names are taken as already cleaned. Paths use '/' only, so the URL's `replace('\\', '/')` is proved to change nothing on such names.
- Machines.PromoteSecours: the transfer of the old principal's components to the new principal (MachineController.java:774-794) is not modelled. That transfer is a best-effort loop of foreign writes whose failure the handler swallows.
- Tickets.Ticket.SetStatut: one `now` stamps the modification date and the completion or archive date. The source reads the clock separately for each, so the two may differ by a few milliseconds.
- TenantStore.ClientStore.InitializeDefaultDataForEnterprise: the seed copies only the arrays (script.js:274-285), so its records are the ones held by `demoData`. Handlers that change a record in place (`startRepair` at script.js:2909-2910, the stock update at script.js:4046-4047, `updateTicketStatus` at script.js:4428-4429) therefore also change `demoData` and every enterprise seeded later. The model seeds from the unchanged demo values, so this sharing is not captured.
- CalendarView.GetEventsForDate: record dates are taken as already parsed to a day. In the script, `new Date(x).toISOString()` (script.js:3542, 3561, 3580) throws a RangeError on an unparseable truthy date, which aborts the whole call and the month render; the model has no such abort.
- Counters.CalculateReportData: the six monthly buckets are keyed by (year, month) pairs, not by the "MM/YYYY" text.
- The "unknown" bucket of the report's status histogram is never used, because `getStatut()` is never null. `Counters.NullStatusCountsAsAFaire` proves where such tickets go instead.
- JPA bean validation (`@NotBlank` and similar annotations) is not modelled. Only the checks written in the handlers are.
- Code outside the shown sources. Components, comments and history records are read through services whose code is not shown. Their answers are parameters. `scheduleNextMaintenance` month arithmetic and the browser's cost and availability statistics are not part of this model.
- Things found but not reported as defects:
  - `CalendarView.SelectedUserMissesNumericIds`: with a user selected by text id, records carrying numeric ids show no event.
  - `ClientRules.CascadeIsStrict`: `deleteCategory` compares ids with `===`, so sub-categories stored with text parent ids survive the cascade.
  - `CalendarView.ParityRepeatsAfterWeek53`: the alternating-week rule gives two odd weeks in a row after a 53-week year.
  - The name comparators of `CategoryService` and `StockService` answer 1 for two unnamed entries. That breaks the comparator contract, and the library sort may then order unnamed entries either way. The model states only that the result is a sorted permutation, which leaves that order open too.
  These are stated and proved, but the evident intent cannot be told from the code.

## Findings

| source | as written | input that shows it | evidently intended | confidence | as-written member | corrected member |
|---|---|---|---|---|---|---|
| src/main/java/com/maintenance/maintenance/service/FirebaseRealtimeService.java:1523-1536 | `updateEnterprise` forwards only `nom`, `adresse` and `numero` to the enterprise node. The edit form's street, postcode, city and email therefore never reach the database, although the controller validates and trims them. | The accepted form with name "A", email "@" and phone "1", saved over a node whose email is "old": the node still holds "old" afterwards. | Every validated field of the edit form is written to the node. | not executed | Enterprises.EditDropsEmailExample | Enterprises.CorrectedEditStoresForm |
