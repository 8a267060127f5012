# Fleet backend rules in Dafny

This project models the rules at the core of a fleet-management backend. The backend is an
Express application over MongoDB collections. Its companies share equipment with partner
companies, report anomalies on that equipment, schedule maintenance, and run an
administration console. The model covers these parts:

- The **Partnership** collection. Directed records `initiator -> partner` live under a unique
  `(initiator, partner)` index. The model helpers `createBidirectional`, `accept` and
  `decline` are covered, and so are the `/api/partnerships` routes: invite, accept, reject,
  the visible-equipment listing and the statistics.
- The **anomaly** routes: the guard chain of a report made through a partnership, the
  photo minimum, the timestamp rules of an update and the list filter.
- The **role gate** `requireRole` and its three presets.
- The **public contact form**: required fields, the e-mail pattern, keyword priority and
  field normalisation.
- The **equipment** routes: the `BLN-<year>-<6 digits>` identifier, the retry loop that
  makes it unique, the deadline filter and the search rule.
- The **workshop** routes: category and type mapping, equipment creation, the
  comma-separated personnel lists, the recent-photos feed, the maintenance schedule,
  maintenance scheduling and the anomaly update.
- The **dashboard**: the health score and its buckets, the analytics period and the
  notification feed.
- The **administration** routes: monthly buckets, contact pagination, filters and updates,
  and the company create and delete guards.
- The **photo service** arithmetic: the quality score and the collage grid.

Collections are modelled as classes holding a `map` from document id to document value. Their
`Valid()` invariant holds only what the database itself keeps at all times: ids that were
handed out and the unique indexes. The schema's validators are not part of it, with one
exception: the Partnership collection also keeps its `required` validators, because every
write to it goes through `save()`. A new document
is stored only when Mongoose's `save()` validation accepts it (`required`, `enum` and the
unique indexes), so the model shows which routes can never store anything. `findByIdAndUpdate`
runs no validators and writes values outside the enums, as the code does; the stores go on
serving requests afterwards. Mongoose schemas are strict, so a path that is not in a schema
reads as absent.

The current time and `Math.random()` are inputs. Time is in milliseconds and a random draw
is a real in `[0, 1)`. Query results, whose order the database decides, are input sequences
tied to the store by preconditions. Strings use ASCII semantics for `toLowerCase`, `trim`
and `\s`.

The Partnership model file and its routes treat pairs differently. The model's helpers
(`src/models/Partnership.js:65-173`) create, accept and decline a pair of records `a -> b` and
`b -> a` together. The routes never call them: the invite route creates one record
(`src/routes/partnerships.js:118-154`) and the accept route updates one record
(`src/routes/partnerships.js:182-184`). Both behaviours are modelled, and
`RouteAcceptLeavesReverse` states the difference.

## Model

| member | source | states |
|---|---|---|
| Partnerships.ParseStatus | src/models/Partnership.js:18-22 | a status string is storable exactly when it names one of `pending`, `accepted`, `declined`, `suspended`, and then it maps back to that name |
| Partnerships.ParseStatusName | src/models/Partnership.js:18-22 | every enum value parses back to itself |
| Partnerships.NewPartnership | src/models/Partnership.js:18-51 | a new document is `pending`, its metric counters are 0, it has no `acceptedAt`/`suspendedAt`, and its access is the supplied one or the default |
| Partnerships.Backward | src/models/Partnership.js:82-91 | the second record of a pair has initiator and partner swapped, is `pending`, and copies the contact and access of the first |
| Partnerships.PartnershipStore.constructor | src/models/Partnership.js:62 | an empty collection satisfies the unique index |
| Partnerships.PartnershipStore.FindByPair | src/models/Partnership.js:119-124 | finds a record with the given initiator and partner, and answers none exactly when there is no such record |
| Partnerships.PartnershipStore.Insert | src/models/Partnership.js:26-62 | a save succeeds exactly when the contact name and e-mail are present and the directed pair is free; only then is one fresh record added, and the unique index still holds |
| Partnerships.PartnershipStore.Update | src/models/Partnership.js:116 | saving a loaded record with unchanged parties replaces that record alone and keeps the index |
| Partnerships.PartnershipStore.CreateBidirectional | src/models/Partnership.js:65-105 | all or nothing: both records `a->b` and `b->a` are added under two fresh ids exactly when both saves can succeed; otherwise the collection is unchanged |
| Partnerships.PartnershipStore.Accept | src/models/Partnership.js:108-140 | the record becomes `accepted` with a timestamp, any reverse record is accepted too, a missing reverse is ignored, and nothing else changes |
| Partnerships.PartnershipStore.Decline | src/models/Partnership.js:143-173 | the record and any reverse record become `declined`, no timestamp is set, and nothing else changes |
| Partnerships.AcceptBothLockstep | src/models/Partnership.js:108-140 | after `accept`, the record and every reverse record are `accepted`, whatever their prior status, and every other record is unchanged |
| Partnerships.DeclineBothLockstep | src/models/Partnership.js:143-173 | after `decline`, the record and its reverse are `declined` with timestamps untouched, and every other record is unchanged |
| Partnerships.DeclineIgnoresPriorStatus | src/models/Partnership.js:149 | `decline` does not check the prior status: an accepted record becomes declined |
| PartnershipRoutes.ListFilterDomain | src/routes/partnerships.js:33-37 | with no status, the list is every record involving the caller; a status outside the enum (such as `rejected`) matches nothing |
| PartnershipRoutes.Directory.constructor | src/models/User.js:5-8 | empty user and company collections satisfy the unique indexes |
| PartnershipRoutes.Directory.FindCompanyByName | src/routes/partnerships.js:79 | returns some company carrying the name, or none exactly when no company carries it |
| PartnershipRoutes.Directory.InsertUser | src/models/User.js:5-15 | a user is saved exactly when its required fields and role enum hold and its e-mail and username are free; whatever the stored companies hold |
| PartnershipRoutes.Directory.InsertCompany | src/models/Company.js:5-16 | a company is saved, under a fresh id, exactly when it has a name, a main manager and a status in the enum; whatever the stored companies hold |
| PartnershipRoutes.Directory.LinkUser | src/routes/partnerships.js:113-114 | the re-save succeeds exactly when the loaded user passes the validators, and then changes only that user's company |
| PartnershipRoutes.FirstName | src/routes/partnerships.js:96 | the placeholder first name is the text before the first space, or the whole contact name when that text is empty |
| PartnershipRoutes.LastName | src/routes/partnerships.js:97 | the placeholder last name is the second space-separated token, or `""` when the name has no space |
| PartnershipRoutes.TempUsername | src/routes/partnerships.js:92-94 | the placeholder username is `temp_`, then the lower-cased name with whitespace runs replaced, then `_` and the decimal timestamp; it holds no whitespace and no upper-case letter |
| PartnershipRoutes.UsernameDeterminesTime | src/routes/partnerships.js:92-94 | two placeholder usernames can be equal only when they carry the same timestamp |
| PartnershipRoutes.SingleWordContactRefused | src/routes/partnerships.js:97-102 | a one-word contact name gives an empty `lastName`, so the placeholder user is refused |
| PartnershipRoutes.TwoWordContactAccepted | src/routes/partnerships.js:91-102 | a complete two-word contact gives a placeholder user that passes the validators |
| PartnershipRoutes.Invited | src/routes/partnerships.js:138-152 | the stored invitation is `pending`, from caller to target, with default access and the contact copied; any request-supplied access is ignored |
| PartnershipRoutes.ResolveTarget | src/routes/partnerships.js:79-115 | a known name gives a company carrying it and leaves the directory unchanged; an unknown name adds a temporary manager and a `pending_partnership` company under a fresh id, managed by that user and linked to it; a refused user changes nothing and gives no target |
| PartnershipRoutes.Invite | src/routes/partnerships.js:51-165 | missing fields or no caller company gives 400 with nothing changed; otherwise the target and the directory change are those of `ResolveTarget`, a refused placeholder gives 500, a record in either direction of any status gives 409, a provisioned company never gives 409, and success adds exactly one record from caller to target |
| PartnershipRoutes.RouteAccept | src/routes/partnerships.js:168-190 | unknown id gives 404, a non-pending record gives 400, otherwise only that record becomes `accepted` with a timestamp |
| PartnershipRoutes.RouteAcceptLeavesReverse | src/routes/partnerships.js:182-184 | the route leaves a pending reverse record pending, where the model's `accept` would accept it |
| PartnershipRoutes.RouteReject | src/routes/partnerships.js:193-214 | 404 and 400 as for accept; a pending record gets `rejected`, which the enum refuses, so the save fails (500) and the store is unchanged |
| PartnershipRoutes.OtherSide | src/routes/partnerships.js:240-242 | the partner company is the side of the record other than the caller's |
| PartnershipRoutes.Owned | src/routes/partnerships.js:245-254 | the equipment query yields exactly the other side's equipment that is not restricted |
| PartnershipRoutes.Tag | src/routes/partnerships.js:264-270 | each listed item carries the partnership id and the partner company |
| PartnershipRoutes.VisibleEquipment | src/routes/partnerships.js:217-277 | no caller company gives 400; otherwise the answer is the concatenation, over the accepted partnerships in query order, of their tagged contributions |
| PartnershipRoutes.VisibleMembership | src/routes/partnerships.js:238-271 | an entry is listed iff its partnership was found and allows viewing, and the item is unrestricted equipment of the other side |
| PartnershipRoutes.PartnershipStats | src/routes/partnerships.js:280-345 | the statistics are the accepted, received-pending and sent-pending counts, the shared-equipment total and the count of anomalies reported through partners |
| PartnershipRoutes.ActiveCountIsFound | src/routes/partnerships.js:294-321 | `activePartnerships` equals the number of partnerships the shared-equipment loop walks |
| PartnershipRoutes.SharedMatchesVisible | src/routes/partnerships.js:328-340 | without restrictions, `totalSharedEquipment` is the length of the visible-equipment list |
| AnomalyRoutes.NewReport | src/routes/anomalies.js:77-86 | a reported anomaly is `reported`, not via a partnership, and has no `titre` |
| AnomalyRoutes.PartnerReport | src/routes/anomalies.js:223-235 | a partner report is flagged `reportedViaPartnership` with the reporter's company and the partnership id |
| AnomalyRoutes.ReportsNeverValid | src/models/Anomaly.js:27 | neither report carries the required `titre`, so neither can be saved |
| AnomalyRoutes.ViewOf | src/routes/anomalies.js:198-210 | a stored partnership has neither `requestingCompany` nor `targetCompany` |
| AnomalyRoutes.HasAccess | src/routes/anomalies.js:203-210 | access holds iff the reporter's company is one party and the equipment's owner is the other party; equipment without a company throws exactly when the reporter's company is a party, and otherwise access is false |
| AnomalyRoutes.HasAccessMeaning | src/routes/anomalies.js:203-210 | spells out both sides of the access rule for distinct parties |
| AnomalyRoutes.AnomalyStore.constructor | src/models/Anomaly.js:15-110 | an empty collection is valid |
| AnomalyRoutes.AnomalyStore.Insert | src/models/Anomaly.js:17-77 | an anomaly is saved, under a fresh id, exactly when its required fields and enums hold; whatever the stored anomalies hold |
| AnomalyRoutes.AnomalyStore.Report | src/routes/anomalies.js:56-97 | unknown equipment gives 404, fewer than 4 photos gives 400, and otherwise the save fails (500); nothing is stored |
| AnomalyRoutes.AnomalyStore.ReportViaPartner | src/routes/anomalies.js:173-250 | unknown equipment gives 404; a missing partnership, or one not `active`, gives 403; past that guard, a throwing access test gives 500, no access gives 403, then too few photos give 400 and otherwise the failed save gives 500; nothing is stored |
| AnomalyRoutes.PartnerRouteRefusesStored | src/routes/anomalies.js:198 | `active` is outside the Partnership enum, so no stored record passes the status check |
| AnomalyRoutes.StoredPartnershipsRefused | src/routes/anomalies.js:196-200 | every record of the collection is refused by the partner route |
| AnomalyRoutes.Stamp | src/routes/anomalies.js:122-127 | `in_analysis` sets `dateAnalyzed` and `resolved` sets `dateResolved` to now, each only when the supplied date is falsy (absent, `null` or 0); a truthy supplied date and every other key are kept |
| AnomalyRoutes.StampIdempotent | src/routes/anomalies.js:122-127 | stamping twice is stamping once, for any stamp time after the epoch |
| AnomalyRoutes.StampZeroDate | src/routes/anomalies.js:122-127 | a supplied date of 0 is overwritten with now, while a truthy supplied date is kept |
| AnomalyRoutes.Apply | src/routes/anomalies.js:129-131 | each given key overwrites its field whatever its value, `""` and `null` included; absent keys and all other fields are kept |
| AnomalyRoutes.ApplyWrites | src/routes/anomalies.js:129-131 | the empty body changes nothing, and applying an update twice is applying it once |
| AnomalyRoutes.UpdateBypassesEnum | src/routes/anomalies.js:129-131 | with no validators, an update stores a status outside the enum or an empty status, and `null` clears a date |
| AnomalyRoutes.UpdateAnomaly | src/routes/anomalies.js:117-138 | unknown id gives 404 and changes nothing; otherwise the stamped body is applied to that anomaly alone |
| AnomalyRoutes.BuildFilter | src/routes/anomalies.js:21-40 | status and criticality clauses appear iff supplied and truthy; a lower date bound iff `today` or `week`; an upper bound iff `today` |
| AnomalyRoutes.FilterMeaning | src/routes/anomalies.js:21-40 | an anomaly is listed iff it agrees with each supplied key: `today` keeps the current day, `week` the last seven days |
| RoleGate.MapRole | src/middleware/auth.js:45-53 | `manager` maps to `gestionnaire` and `workshop` to `atelier`; every other role maps to itself |
| RoleGate.MapRoleIdempotent | src/middleware/auth.js:45-53 | mapping a mapped role changes nothing |
| RoleGate.RequireRole | src/middleware/auth.js:35-70 | no user gives 401; otherwise pass iff the role or its mapped role is allowed, else 403 carrying the allowed list and the role |
| RoleGate.RequireRoleMonotone | src/middleware/auth.js:56 | enlarging the allowed list never turns a pass into a refusal |
| RoleGate.AliasAdmitsEnglish | src/middleware/auth.js:53-56 | allowing `gestionnaire` admits `manager`, and allowing `atelier` admits `workshop` |
| RoleGate.RequireAdmin | src/middleware/auth.js:73-75 | only `admin` passes |
| RoleGate.RequireWorkshop | src/middleware/auth.js:78-80 | exactly `workshop`, `atelier` and `admin` pass |
| RoleGate.RequireManager | src/middleware/auth.js:83-85 | exactly `manager`, `gestionnaire` and `admin` pass |
| RoleGate.WorkshopRouterGate | src/routes/workshop.js:19 | the workshop router admits exactly `workshop` and `admin` |
| RoleGate.AtelierRefusedByWorkshopRouter | src/routes/workshop.js:19 | `atelier` passes `requireWorkshop` but is refused by the workshop router |
| ContactForm.ValidEmail | src/routes/public.js:25-26 | the test holds iff the address matches the pattern: nonempty local part, `@`, nonempty domain part, `.`, nonempty tail, with no whitespace or `@` anywhere |
| ContactForm.MatchHasShape | src/routes/public.js:25 | a match of the pattern has the shape the model checks |
| ContactForm.ShapeMatches | src/routes/public.js:25 | an address of that shape matches the pattern |
| ContactForm.LowerKeepsEmail | src/routes/public.js:55 | lower-casing a valid address keeps it valid |
| ContactForm.Classify | src/routes/public.js:33-50 | the priority is `high` iff the lower-cased message contains an urgent keyword, else `medium`; the second keyword list changes nothing |
| ContactForm.ClassifyTrim | src/routes/public.js:43-58 | trimming the message never changes its priority |
| ContactForm.Normalize | src/routes/public.js:53-61 | the document has status `new`, the classified priority, and source `website` when none is given |
| ContactForm.Submit | src/routes/public.js:6-77 | missing fields or a malformed address give 400; success yields a storable document with a lower-case valid address; every other failure is 500 |
| ContactForm.BlankNameRefused | src/models/ContactMessage.js:5-9 | a name of only whitespace passes the presence check but fails `required` after trimming (500) |
| ContactForm.SubmitSucceeds | src/routes/public.js:18-63 | a submission succeeds iff the fields are present, the address matches and the normalised document is storable, and it then yields that document |
| ContactForm.NormalizeStable | src/routes/public.js:53-61 | normalising a stored message's fields again gives the same message |
| ContactForm.SubmitStable | src/routes/public.js:53-63 | resubmitting a stored message gives the same reply |
| EquipmentRoutes.WithDefaults | src/models/Equipment.js:100-104 | a missing status defaults to `available`; nothing else changes |
| EquipmentRoutes.Suffix | src/routes/equipment.js:20 | the random suffix is the integer part of `100000 + r*900000`, so it is between 100000 and 999999 |
| EquipmentRoutes.GenerateBillunId | src/routes/equipment.js:18-22 | the id is `BLN-`, the year, `-` and exactly six digits whose value is the suffix |
| EquipmentRoutes.GeneratedIdsDistinct | src/routes/equipment.js:18-22 | two ids of one year are equal iff their suffixes are |
| EquipmentRoutes.UpcomingMeaning | src/routes/equipment.js:37-45 | `deadlines=upcoming` keeps equipment with an inspection, maintenance or tailgate date at most 30 days ahead |
| EquipmentRoutes.ListFilterMonotone | src/routes/equipment.js:27-45 | a later `now` keeps every item listed earlier, and only the deadline clause depends on time |
| EquipmentRoutes.EquipmentStore.constructor | src/models/Equipment.js:5 | an empty collection satisfies the unique `billunId` index |
| EquipmentRoutes.EquipmentStore.Insert | src/routes/equipment.js:76-77 | a save succeeds exactly when the document passes the validators (types, fuel, status) and its `billunId` is free; it then adds the document under a fresh id and keeps the index, whatever the stored documents hold |
| EquipmentRoutes.EquipmentStore.HasBillunId | src/routes/equipment.js:70 | answers whether some equipment holds the id |
| EquipmentRoutes.EquipmentStore.FreshBillunId | src/routes/equipment.js:66-74 | the loop returns the first generated id no equipment holds, and every earlier draw was taken; none iff every draw is taken |
| EquipmentRoutes.EquipmentStore.Register | src/routes/equipment.js:52-82 | the stored `billunId` is one no equipment held, replacing any client-supplied one; success iff the resulting document is valid, and otherwise 500 with nothing stored |
| EquipmentRoutes.EquipmentStore.Search | src/routes/equipment.js:136-155 | returns equipment whose `billunId`, `internalId` or `licensePlate` equals the identifier; 404 iff there is none |
| EquipmentRoutes.FirstFresh | src/routes/equipment.js:66-74 | the index of the first draw whose id is free |
| WorkshopRoutes.EquipmentTypeOf | src/routes/workshop.js:516-528 | `remorque` maps to `trailer`, `manutention` to `handling`, anything else to `vehicle` |
| WorkshopRoutes.SpecificTypeOf | src/routes/workshop.js:531-548 | defined iff the category is `vehicule` or `camion`; `tracteur` maps to `road_tractor`, `utilitaire` to `van`, `voiture` to `car`, else `truck` |
| WorkshopRoutes.MappingsConsistent | src/routes/workshop.js:516-548 | a specific type is given only to vehicles, and is never `truck_trailer` or `custom` |
| WorkshopRoutes.StoredStatus | src/routes/workshop.js:566 | `active` and an absent status are stored as `available`; other statuses pass through |
| WorkshopRoutes.NewEquipment | src/routes/workshop.js:551-566 | the document built by the route has the mapped types, the supplied fuel as `fuelType`, the stored status, mileage 0 when absent, and no `internalId` |
| WorkshopRoutes.ChosenId | src/routes/workshop.js:505 | the `billunId` is the supplied internal id when truthy, else a generated id |
| WorkshopRoutes.CreateRefusedForStatusOrFuel | src/routes/workshop.js:551-568 | the built document is valid iff its stored status is in the status enum and its supplied fuel, if any, is in the fuel enum |
| WorkshopRoutes.CreateEquipment | src/routes/workshop.js:498-575 | missing name or category gives 400; a `billunId` already held gives 400; a document the validators refuse (status or fuel) gives 500; otherwise 201 and exactly that document is added |
| WorkshopRoutes.SplitTrim | src/routes/workshop.js:689-695 | an absent list gives `[]`; otherwise there is one piece per comma plus one, each without commas and trimmed |
| WorkshopRoutes.TrimPiece | src/routes/workshop.js:690 | trimming a piece keeps it free of commas |
| WorkshopRoutes.SplitTrimRoundTrip | src/routes/workshop.js:689-695 | for a nonempty list without whitespace, joining the pieces with commas gives back the input |
| WorkshopRoutes.EntriesOf | src/routes/workshop.js:199-210 | one entry per photo of the anomaly, in order |
| WorkshopRoutes.FlattenedMembership | src/routes/workshop.js:197-212 | an entry is in the flattened list iff it is some photo of some fetched anomaly |
| WorkshopRoutes.FlattenPhotos | src/routes/workshop.js:197-212 | the nested loops build the flattened list |
| WorkshopRoutes.NewerOrders | src/routes/workshop.js:214 | the timestamp comparator is total and transitive |
| WorkshopRoutes.NewestMeaning | src/routes/workshop.js:214-216 | the answer holds `min(limit, n)` photos, newest first, drawn from the list, and no photo left out is newer than one kept |
| WorkshopRoutes.RecentPhotos | src/routes/workshop.js:186-216 | the answer is the newest `limit` photos of the flattened list |
| WorkshopRoutes.AnomalyEvent | src/routes/workshop.js:279-294 | an anomaly event is a `maintenance` event dated now, because `scheduledDate` is not an Anomaly path |
| WorkshopRoutes.EquipmentEventsMeaning | src/routes/workshop.js:296-333 | equipment yields only `control` events, one per equipment with a technical inspection date, dated on it |
| WorkshopRoutes.BuildEvents | src/routes/workshop.js:279-333 | the loops emit the anomaly events, then the equipment events |
| WorkshopRoutes.EarlierOrders | src/routes/workshop.js:336 | the date comparator is total and transitive |
| WorkshopRoutes.MaintenanceSchedule | src/routes/workshop.js:279-336 | the events are sorted by date ascending, are a permutation of the built events, and number the anomalies plus the equipment with an inspection date |
| WorkshopRoutes.ProblemType | src/routes/workshop.js:371 | `inspection` iff the type is `control`, else `maintenance` |
| WorkshopRoutes.ScheduledAnomaly | src/routes/workshop.js:365-376 | the document is `scheduled`, `operational`, and has criticality defaulting to `normal` and a default description |
| WorkshopRoutes.ScheduledNeverValid | src/routes/workshop.js:365-376 | the scheduled document violates the Anomaly enums, so it is never saved |
| WorkshopRoutes.ScheduleMaintenance | src/routes/workshop.js:346-380 | a missing equipment or title, or a falsy date (absent, `null` or 0), gives 400; every other request fails its save (500); nothing is stored |
| WorkshopRoutes.WorkshopPatch | src/routes/workshop.js:151-161 | a key is given iff its body field is truthy (status, notes, assignee, cost), with the body's value; `in_analysis` gives `dateAnalyzed` and `resolved` gives `dateResolved`, both now |
| WorkshopRoutes.WorkshopAgreesWithStamp | src/routes/workshop.js:160-161 | the workshop patch's dates are the anomaly route's stamps of the same status, and stamping it again changes nothing |
| WorkshopRoutes.WorkshopUpdateMeaning | src/routes/workshop.js:151-168 | after the update the status, notes, assignee and cost are the truthy body values or the stored ones, the status dates are now or the stored ones, and every other field is kept |
| WorkshopRoutes.WorkshopUpdateAnomaly | src/routes/workshop.js:141-170 | unknown id gives 404; otherwise the patch, copied fields included, overwrites that anomaly alone, without validation |
| WorkshopRoutes.SetEquipmentStatus | src/routes/workshop.js:601-621 | unknown id gives 404; otherwise a supplied status is written without validation and nothing else changes |
| WorkshopRoutes.StatusUpdateBypassesEnum | src/routes/workshop.js:601-621 | the status route can leave a document the validators would refuse |
| Dashboard.HealthScore | src/routes/dashboard.js:226-234 | the score is 100 less 5 per anomaly, and at most 100 |
| Dashboard.SummaryPartitions | src/routes/dashboard.js:243-251 | healthy, at-risk and critical counts add up to the total |
| Dashboard.BucketsByAnomalyCount | src/routes/dashboard.js:226-251 | healthy means at most 4 anomalies, at risk 5 to 8, critical 9 or more |
| Dashboard.PeriodStart | src/routes/dashboard.js:264-281 | `7d`, `90d` and `1y` select their windows; anything else, or absent, selects 30 days |
| Dashboard.PeriodWindows | src/routes/dashboard.js:264-281 | unknown and absent periods equal `30d`, and longer periods start earlier |
| Dashboard.OverduePriorityThreshold | src/routes/dashboard.js:441-447 | an overdue maintenance is `high` iff at least eight full days have passed, else `medium`, never `low` |
| Dashboard.CriticalNotices | src/routes/dashboard.js:419-430 | one `high` critical-anomaly notification per critical anomaly |
| Dashboard.OverdueNotices | src/routes/dashboard.js:441-455 | one notification per overdue maintenance, with the threshold priority and the scheduled date |
| Dashboard.InvitationNotices | src/routes/dashboard.js:463-472 | one `medium` notification per pending invitation |
| Dashboard.BeforeOrders | src/routes/dashboard.js:475-481 | the notification comparator is total and transitive |
| Dashboard.CountsAddUp | src/routes/dashboard.js:483-490 | `total` is `high + medium + low` |
| Dashboard.NoLowNotices | src/routes/dashboard.js:483-490 | a list without `low` notifications counts 0 of them |
| Dashboard.OverdueNoticesNeverLow | src/routes/dashboard.js:441-455 | no overdue notification is `low` |
| Dashboard.CollectNotifications | src/routes/dashboard.js:419-472 | the three loops emit critical, overdue, then invitation notifications |
| Dashboard.Notifications | src/routes/dashboard.js:411-490 | the list is a permutation of the collected notifications, ordered by rank and then newest first; the total counts every source and is high + medium + low with low 0 |
| AdminRoutes.Buckets | src/routes/admin.js:29-51 | always twelve buckets |
| AdminRoutes.MonthlyBuckets | src/routes/admin.js:29-51 | the array built by the loop equals the twelve buckets |
| AdminRoutes.BucketsMeaning | src/routes/admin.js:43-51 | buckets are labelled `Jan` to `Déc` in order; a month takes the count of its last current-year row, and 0 without one |
| AdminRoutes.TotalPages | src/routes/admin.js:347 | `ceil(total / limit)`: 0 iff no records, and the pages just cover the records; none for a zero limit |
| AdminRoutes.PagesCoverRecords | src/routes/admin.js:334-347 | each page from 1 to the page count starts on an existing record, and the next page starts past them all |
| AdminRoutes.Clause | src/routes/admin.js:319-324 | a status or priority clause is added iff the value is truthy and not `all` |
| AdminRoutes.AllIsNoFilter | src/routes/admin.js:319-324 | `all`, `""` and absent give the same filter |
| AdminRoutes.ApplyContactUpdate | src/routes/admin.js:359-375 | truthy status, priority and assignee are copied, notes are copied whenever present, `contacted`/`in_progress` set `responseDate` and `converted` sets `conversionDate` |
| AdminRoutes.ContactUpdateRules | src/routes/admin.js:359-375 | empty notes are stored, empty status and priority change nothing, and an out-of-enum status is stored |
| AdminRoutes.ContactUpdateIdempotent | src/routes/admin.js:359-375 | applying the same update twice is applying it once |
| AdminRoutes.NewCompany | src/routes/admin.js:489-497 | the created company has no main manager and status `active` |
| AdminRoutes.NewCompanyNeverValid | src/models/Company.js:7-11 | without a main manager the company fails its `required` validator |
| AdminRoutes.CreateCompany | src/routes/admin.js:458-501 | missing name or e-mail gives 400; a clashing siret gives 400; otherwise the save fails (500); nothing is stored |
| AdminRoutes.FindSiret | src/routes/admin.js:479-481 | answers whether some company has the siret |
| AdminRoutes.HasUsers | src/routes/admin.js:614 | answers whether some user belongs to the company |
| AdminRoutes.HasEquipment | src/routes/admin.js:615-617 | answers whether some equipment belongs to the company |
| AdminRoutes.DeleteCompany | src/routes/admin.js:611-640 | users or equipment give 400; unknown id gives 404; otherwise the company is kept with status `deleted`, which its enum refuses, and the directory invariant still holds |
| PhotoProcessing.Penalty | src/services/PhotoProcessingService.js:91-106 | the penalties add up to at most 45, and to 0 iff none applies |
| PhotoProcessing.QualityScore | src/services/PhotoProcessingService.js:84-112 | a failed analysis scores 50; otherwise the score is 100 less 20 for low resolution, 15 for over 5 MiB and 10 for a dark first channel, within [0, 100] |
| PhotoProcessing.PenaltiesMeaning | src/services/PhotoProcessingService.js:89-109 | analysed images score from 55 to 100, so the clamp never applies and no analysed image scores 50; the score tells which penalties applied |
| PhotoProcessing.GridFor | src/services/PhotoProcessingService.js:142-145 | defaults 1200x800, 2 columns, margin 10; `rows = ceil(n / columns)`, and the cell sizes are the floors of the free space divided among columns and rows |
| PhotoProcessing.CreateCollage | src/services/PhotoProcessingService.js:141-184 | fails iff the canvas or the cells would have a non-positive size; otherwise one entry per image, in input order, at its grid slot |
| PhotoProcessing.SlotInsideCanvas | src/services/PhotoProcessingService.js:158-163 | with a non-negative margin, each placed cell lies on the canvas at least one margin from every edge |
| PhotoProcessing.SlotsDisjoint | src/services/PhotoProcessingService.js:158-163 | with a non-negative margin, the cells of two different images do not overlap |
| Text.Trim | src/routes/public.js:54-58 | `trim` removes whitespace only, and the result neither starts nor ends with whitespace |
| Text.TrimIdempotent | src/routes/public.js:54-58 | trimming twice is trimming once |
| Text.Contains | src/routes/public.js:44 | `includes` holds iff the word occurs at some position |
| Text.JoinSplit | src/routes/workshop.js:690 | joining the pieces of a split with the separator gives back the input |
| Text.NatToStringValue | src/routes/equipment.js:21 | the decimal rendering of a number reads back as that number |
| Text.ReplaceSpaceRuns | src/routes/partnerships.js:93 | the result has no whitespace, is no longer than the input, and holds only `_` and characters of the input |
| Text.ReplaceSpaceRun | src/routes/partnerships.js:93 | a maximal whitespace run becomes one `_`, and the text on each side is replaced on its own |
| Text.ReplaceSpaceRunsNoSpace | src/routes/partnerships.js:93 | text without whitespace is left as it is |
| Sorting.SortBy | src/routes/dashboard.js:475-481 | the sort with a total comparator yields a sorted permutation of its input |
| Sorting.SortSorted | src/routes/workshop.js:336 | sorting a list that is already sorted leaves it unchanged |

## Left out

- Time arithmetic: `setHours`, `setDate` and `setFullYear` are modelled as inputs (`startOfToday`, `oneYearBack`) or as whole days of 86 400 000 ms. Daylight-saving days are not modelled.
- Transactions are modelled as all-or-nothing steps. Sessions, concurrency and interleaving of requests are not.
- Which of several matching documents `findOne` returns is not fixed: the model returns some match.
- Population (`populate`) and the fields it adds to answers are not modelled. Answers carry ids.
- Aggregation pipelines (`$lookup`, `$group`, `countDocuments`) are inputs: equipment health, the monthly `$group` rows, and overdue and critical queries.
- Query order (`sort` in the database, `limit`) is an input sequence.
- `EquipmentRoutes.EquipmentStore.Register`: the source loop retries forever when every id is taken. The model takes a finite sequence of draws and requires one of them to be free.
- `RoleGate.MapRole`: roles named like properties of `Object.prototype` (such as `constructor`) are not modelled.
- `Partnerships.PartnershipStore.CreateBidirectional`: keys of the invitation data outside the modelled fields are not spread into the first record.
- Extra fields of the anomaly reports (location, report location, immobilisation status, description) are kept only where a validator looks at them.
- `AnomalyRoutes.AnomalyStore.ReportViaPartner`: the metric update (`sharedAnomalies`, `lastActivity`) comes after a save that never succeeds, so it is unreachable. `sharedAnomalies` is also not a schema path. The equipment is reduced to its optional `company`; a partnership document without a status is not modelled.
- Cast errors of malformed ids, `NaN` from `parseInt`, and negative or `NaN` page limits are not modelled. Numbers in requests are integers.
- Sorting is modelled on values. The in-place update of the JavaScript array is not, and neither is how ties are ordered; the proved order properties do not depend on ties.
- The `trim` setters of the contact schema on updates are not modelled.
- The search regexes of the admin listings are not modelled.
- `AdminRoutes.CreateCompany`: the duplicate check's e-mail clause is modelled as matching nothing, because `email` is not a Company path. This assumes Mongoose passes filters on paths outside the schema to the database (`strictQuery` off, the default of Mongoose 5 and 7). The Mongoose version is not fixed by the sources; under the Mongoose 6 default the clause is stripped to `{}`, matches every company, and the route answers 400 whenever a company exists. The empty-siret clause (`siret: siret \|\| ""`) is modelled as a siret lookup.
- `AnomalyRoutes.Apply`: only the status, the two dates, the notes, the assignee and the estimated cost of an update body are carried. `findByIdAndUpdate` also writes any other schema key the body holds (such as `titre`, `criticality`); those writes are not modelled. A status given as `null` and values the schema cannot cast are not modelled either.
- `AnomalyRoutes.UpdateAnomaly`: inherits the key coverage of `Apply`.
- `AnomalyRoutes.Stamp`: body dates are carried as milliseconds or `null`; other falsy raw values (`""`, `false`) are taken as `null`, which they also stamp.
- `WorkshopRoutes.SetEquipmentStatus`: a status given as `null` is not modelled; `lastStatusUpdate` and `availability` are not Equipment paths and are dropped.
- `PartnershipRoutes.Invite`: object ids are modelled as counters, and the precondition `PartiesKnown` says that every stored partnership names companies the directory has handed out.
- The second `GET /maintenance` and `POST /maintenance` handlers of the workshop router (`src/routes/workshop.js:744-783`) are shadowed by the first ones and are not modelled.
- Photo processing itself (`sharp` metadata, statistics, resizing and compositing, JPEG output) is not modelled. The values it reads are inputs, and its failures are `None`.
- `PhotoProcessing.CreateCollage`: a non-positive column count is treated as a failure. The JavaScript arithmetic on `Infinity` and `NaN` it would produce is not modelled.
- `detectLowLight`, averages of maintenance or photo quality, and the `responseTime` rounding of contact messages use floating point and are not modelled.
- JWT verification, password hashing, temporary password generation and sending e-mails are not modelled.
- The thin CRUD routes (users, sites, workshops, companies, maintenance, login), the storage service, the upload routes, the database reset script and the HTTP feature tests are not part of this model.
- String functions follow ASCII: `toLowerCase`, `trim` and `\s` on other characters are not modelled.
