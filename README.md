# A verified model of the Sahana Eden RLPPTM core

This project models, in Dafny, the parts of the Sahana Eden code base (with
its RLPPTM and CumbriaEAC templates) that carry state-changing or string
logic, and proves what that logic promises. Database tables are sequence or
map fields of classes; the selected rows of a query are inputs; the current
time, random uuids, hash functions and the code of collaborators that are
not part of this model (`TestProvider`, `ProviderRepresentative`,
`pr_realm`, `update_mgrinfo`, `update_verification`, `update_all`,
`is_org_group`, the CSV/XSLT and role importers) are function or boolean
parameters.

| file | module | what it models |
|---|---|---|
| wrappers.dfy | Wrappers | Option/Result, Python truthiness, filtering and counting over sequences |
| strings.dfy | Strings | `str.split`/`join`, `find`, `lower`, decimal and hex numerals, `"%0Nd"` formatting |
| utils.dfy | Utils | the session map of last record ids, match-string annotation, URL extensions, template keys, `s3_flatlist`, traceback link rewriting |
| msg.dfy | Msg | enabling and disabling messaging channels and parsers, the scheduler task table, and the form hooks of channels and parsers |
| helpers.dfy | Helpers | an organisation's user accounts, least-loaded invoice assignment, the debit-cancellation permission, default organisation and facility tags |
| dashboard.dfy | Dashboard | the single active dashboard configuration per controller and function |
| shelter.dfy | Shelter | CumbriaEAC shelter check-in and check-out of people and staff, shelter status defaults |
| migration.dfy | Migration | rows shared by the upgrade scripts and the OrgID tag back-fill |
| upgrade_*.dfy | Upgrade152 … Upgrade1201, Fixup1126 | one RLPPTM database upgrade script each, as a class with one method per step and a `Run` that commits or rolls back |

Each upgrade script runs in one transaction: a step that fails sets
`failed`, later steps are skipped, and at the end the transaction is rolled
back (the model restores the snapshot of its tables) or committed. Every
loop of the source is a method whose `ensures` equates its result with a
specification function folded over the rows; lemmas then state what the
source promises about that function.

The model follows the code as written, including these behaviours:

- `s3_get_extension_from_url` (modules/core/tools/utils.py:977) binds `k`
  to the list of pieces or None, never to a string, so a `format=` query
  parameter is never recognised (`Utils.QueryFormatNeverMatches`).
- In 1.19.1-1.19.2.py the status of a verification is computed from the
  local values: line 135 assigns the new REVIEW to `org_type`, so a N/V
  type check still counts as N/V, and lines 131-132 write ACCEPT without
  changing the local REVISE (`Upgrade1191.StatusFromLocalValues` shows a
  record whose stored status disagrees with its stored values).
- The tag query of 1.19.1-1.19.2.py:48 uses Python `in` on a field, which
  does not build the intended SQL; the model takes the selected tag rows
  as input, and tags other than Commercial, VERIFREQ and MINFOREQ set no
  flag, as lines 62-64 ensure.
- 1.18.1-1.18.2.py:102 selects without the group join it builds, so
  `update_mgrinfo` is called for every live organisation, not only test
  stations (`Upgrade1181.ManagerInfoCalls`).
- 1.5.4-1.6.0.py:98 joins the OrgID tags through the transaction table's
  alias; the model takes the selected organisations as input.
- SQL SUM over no non-NULL value is NULL, so a program without live
  transactions gets NULL balances (`Upgrade154.SqlSum`).
- The GCM channel hook sets `enabled = False` on the other GCM channels by
  a bulk update, without disabling their poll tasks (`Msg.MessagingDb.GcmOnaccept`).
- The 1.10.1-1.11.0.py DELIVERY step decides from the rows selected before
  the loop, so an organisation returned twice by the join gets two tags.
- 1.18.1-1.18.2.py and 1.20.1-1.20.2.py have no step that sets `failed`,
  so they always commit.
- `twitter_channel_onaccept` (modules/s3db/msg.py:2184-2191) has the same
  body as `msg_facebook_channel_onaccept`; both are `Msg.MessagingDb.LoginOnaccept`.

## Model

| member | source | states |
|---|---|---|
| Dashboard.DeactivateRivals | modules/s3db/s3.py:164-171 | no rival of the saved row (a live, active configuration with its controller and function and another id) stays active; only the `active` flag can change, and a row that is not a rival is returned unchanged, in place |
| Dashboard.OnacceptEffect | modules/s3db/s3.py:147-171 | no record id, no matching row or an inactive saved row leave the table unchanged; otherwise only the `active` flag of rivals changes, the saved row, other pages and deleted rows keep their values, and the saved configuration is afterwards the only active live one for its controller and function |
| Dashboard.OnacceptIdempotent | modules/s3db/s3.py:164-171 | accepting the same form a second time changes nothing |
| Dashboard.DashboardTable.Onaccept | modules/s3db/s3.py:138-171 | the s3_dashboard table becomes the onaccept specification of its old contents, whose effect is proved by OnacceptEffect |
| Helpers.AccountsPartition | modules/templates/RLPPTM/helpers.py:86-96 | every selected user lands in exactly one of the active, disabled and invited lists: the three lists together are a permutation of the selected users |
| Helpers.AccountsSorted | modules/templates/RLPPTM/helpers.py:86-96 | a list holds exactly the users of its kind: invited iff the linked person's pe_id is falsy, otherwise disabled iff the registration key is non-empty, otherwise active |
| Helpers.GetOrgAccounts | modules/templates/RLPPTM/helpers.py:54-98 | the three lists returned are the users of each kind in the order of the selected rows |
| Helpers.Candidates | modules/templates/RLPPTM/helpers.py:258-271 | the invoices re-assigned are, in table order, exactly the unpaid, non-deleted invoices of the billing (or the one given invoice) that are unassigned or assigned to someone who is not an accountant |
| Wrappers.Distinct | modules/templates/RLPPTM/helpers.py:280 | the workload keys are exactly the accountants, each once (their order is Wrappers.DistinctOrder); the same function restores the links of 1.7.1-1.7.2.py:64-75 |
| Helpers.InitialWorkload | modules/templates/RLPPTM/helpers.py:280-292 | each accountant's starting workload is their number of unpaid, non-deleted assigned invoices (0 when they have none) |
| Helpers.ArgMin | modules/templates/RLPPTM/helpers.py:296 | the accountant picked has a minimal workload, and every accountant listed before it has a strictly larger one |
| Helpers.AssignFromSum | modules/templates/RLPPTM/helpers.py:294-298 | each re-assignment raises the total workload by exactly one |
| Helpers.AssignFromBalanced | modules/templates/RLPPTM/helpers.py:294-298 | workloads that differ by at most one keep differing by at most one |
| Helpers.AssignFromTargets | modules/templates/RLPPTM/helpers.py:294-298 | every candidate invoice ends up assigned to an accountant; other invoices and all other fields are unchanged |
| Helpers.Unassign | modules/templates/RLPPTM/helpers.py:300-302 | no pending invoice of the billing keeps an accountant; only the accountant field can change, and every other invoice is unchanged |
| Helpers.AssignPendingEdges | modules/templates/RLPPTM/helpers.py:239-248 | no organisation and no billing: nothing changes; no accountants and no invoice id: the billing's pending invoices are unassigned; no accountants but an invoice id: nothing changes |
| Helpers.AssignPendingWithAccountants | modules/templates/RLPPTM/helpers.py:258-298 | with accountants, exactly the candidate invoices change, each to an accountant, only in the accountant field; the workload total grows by the number of candidates and balanced workloads stay balanced |
| Helpers.InvoiceDb.AssignCandidates | modules/templates/RLPPTM/helpers.py:294-298 | the loop leaves the invoice table equal to the assignment specification and the billings unchanged |
| Helpers.InvoiceDb.AssignPendingInvoices | modules/templates/RLPPTM/helpers.py:226-302 | the invoice table becomes the assign_pending_invoices specification whose properties AssignPendingEdges and AssignPendingWithAccountants state |
| Helpers.CanCancelDebit | modules/templates/RLPPTM/helpers.py:378-424 | false without a user, without the VOUCHER_PROVIDER role row or when the user lacks the role; otherwise true iff the debit's pe_id is in the role realms, the user's own realms standing in for empty or site-wide role realms |
| Helpers.AssignedRealmsDecide | modules/templates/RLPPTM/helpers.py:401-420 | with realms assigned for the role, the decision is membership in those realms and does not depend on the user's own realms |
| Helpers.SiteWideNeedsAffiliation | modules/templates/RLPPTM/helpers.py:411-420 | a site-wide or empty role grants cancellation iff the debit's pe_id is among the user's own realms |
| Helpers.OrgUid | modules/templates/RLPPTM/helpers.py:494-498 | the uid is `int(uuid[9:14], 16)` (see the Strings.ParseHex rows for what that accepts), or the random uuid's digits when the uuid is missing or the slice raises; its magnitude is below 16^5 when the random digits are, and a negative uid, whose sign takes one of the five characters, is above -16^4 |
| Helpers.DecodeOrgId | modules/templates/RLPPTM/helpers.py:499 | the reading-back of an OrgID value used by OrgIdRoundTrip: a text of at least 10 characters, an optional minus sign and then digits, split before the last four digits into uid and record id |
| Helpers.OrgIdRoundTrip | modules/templates/RLPPTM/helpers.py:499 | `"%06d%04d" % (uid, id)` for an id below 10000 decodes back to (uid, id), negative uids included; it has 10 or 11 characters for 0 <= uid < 16^5, and 10 for -16^4 < uid < 0, where the sign counts toward the width of six |
| Helpers.OrgDefaultTagsEffect | modules/templates/RLPPTM/helpers.py:480-503 | after the insert the organisation has a REQUESTER and an OrgID tag; one row is inserted per missing tag, a new REQUESTER tag is "N", and a second call inserts nothing |
| Helpers.FacilityDefaultTagsEffect | modules/templates/RLPPTM/helpers.py:530-540 | a PUBLIC tag is inserted iff none exists, its value is "Y" iff approve, and a second call inserts nothing |
| Helpers.TagDb.AddOrganisationDefaultTags | modules/templates/RLPPTM/helpers.py:449-503 | for an existing organisation the tag table grows by the default tags; for a missing one nothing changes; the other tables are unchanged |
| Helpers.TagDb.AddFacilityDefaultTags | modules/templates/RLPPTM/helpers.py:506-540 | for an existing facility the site tag table grows by the default PUBLIC tag; for a missing one nothing changes; the other tables are unchanged |
| Migration.OrgIdTagsEffect | modules/templates/RLPPTM/upgrade/1.5.3-1.5.4.py:60-71 | the i-th tag inserted is the live OrgID tag of the i-th selected organisation; its uid is the hex value of `uuid[9:14]` or the random fallback when that raises; for ids below 10000 the value decodes back to uid and id, and when the random digits are below 16^5 it has 10 or 11 characters, a uid parsed from a signed slice included |
| Migration.OrgIdBackfillComplete | modules/templates/RLPPTM/upgrade/1.5.3-1.5.4.py:47-71 | after the back-fill every live organisation has a live OrgID tag, so running it again selects nothing |
| Upgrade153.OrgIdUpgrade.InstallOrgIds | modules/templates/RLPPTM/upgrade/1.5.3-1.5.4.py:44-74 | the tag table grows by one OrgID tag per live organisation without one, in selection order; `added` is their number; the organisations are unchanged |
| Msg.ScheduleOnce | modules/s3db/msg.py:208-225 | afterwards an active task for the function and args exists; one that existed leaves the table unchanged, otherwise exactly one new queued task is appended |
| Msg.StopAll | modules/s3db/msg.py:284 | exactly the active tasks with the function and args are set to STOPPED, no such active task remains, and nothing else changes |
| Msg.StopsNoNewActive | modules/s3db/msg.py:284 | stopping tasks never makes a task active that was not |
| Msg.CountPositive | modules/s3db/msg.py:211-216 | the task query finds a row iff the number of matching active tasks is positive |
| Msg.ScheduleOnceCount | modules/s3db/msg.py:216-225 | scheduling once leaves one active task where there was none and the count as it was otherwise |
| Msg.ScheduleOnceOther | modules/s3db/msg.py:211-225 | scheduling for one function and args leaves the active count of every other function or args unchanged |
| Msg.ScheduleOnceIdempotent | modules/s3db/msg.py:216-225 | scheduling a second time changes nothing |
| Msg.ParserIds | modules/s3db/msg.py:201-204 | every parser of the channel that passes the deleted filter is listed, and every listed id is the id of such a parser |
| Msg.ParserIdsOfChannel | modules/s3db/msg.py:201-204 | with unique ids, a parser of another channel, or a deleted one when deleted ones are excluded, is not listed |
| Msg.ParserEnabled | modules/s3db/msg.py:1283-1296 | true iff the first parser row of the channel exists and is enabled |
| Msg.ParserEnableFrame | modules/s3db/msg.py:1300-1343 | parser_enable changes no channel and no parser with another id, changes only the parser's enabled flag and only upward, keeps every task and appends only parse tasks of that parser |
| Msg.ParserDisableFrame | modules/s3db/msg.py:1361-1395 | parser_disable changes no channel and no parser with another id, changes only the parser's enabled flag and only downward, and only stops tasks, all of them parse tasks of that parser |
| Msg.EnableParsersCascade | modules/s3db/msg.py:205-206 | after the enable loop every listed parser is enabled with an active parse task; channels and unlisted parsers are untouched, flags only go up, every task is kept and the appended ones are parse tasks of listed parsers |
| Msg.DisableParsersCascade | modules/s3db/msg.py:271-272 | after the disable loop every listed parser is disabled with no active parse task; channels and unlisted parsers are untouched; tasks are only stopped, and only parse tasks of listed parsers |
| Msg.ParseTasksKeepPolls | modules/s3db/msg.py:200-216 | the parser loop leaves the poll tasks of the channel as they were, so the poll check sees the table from before the loop |
| Msg.ChannelEnableEffect | modules/s3db/msg.py:177-225 | the channel is enabled and no other channel row changes; every non-deleted parser of the channel is enabled with an active parse task; an active poll task exists; a new poll task (QUEUED, period 300, timeout 300, repeats 0) is added only when none was active, and the message reports exactly that; parsers of other channels and deleted parsers keep their rows; every old task is kept and the added ones are the poll task or parse tasks of the channel |
| Msg.ChannelEnableFrame | modules/s3db/msg.py:177-225 | channel_enable changes only the channel's own flag among the channel rows, leaves parsers of other channels and deleted parsers alone, keeps every task and appends only the channel's poll task and parse tasks of the channel |
| Msg.ChannelDisableFrame | modules/s3db/msg.py:245-287 | channel_disable changes only the channel's own flag among the channel rows, leaves parsers of other channels alone, and only stops tasks, all of them the channel's active poll tasks or parse tasks of the channel |
| Msg.ChannelEnableIdempotent | modules/s3db/msg.py:208-225 | a second channel_enable returns "Channel already enabled" and leaves the number of active poll tasks unchanged |
| Msg.ChannelDisableEffect | modules/s3db/msg.py:245-287 | the channel is disabled; every parser of the channel, deleted ones included, is disabled with no active parse task; no poll task of the channel stays active; the message says whether one was; parsers of other channels keep their rows; tasks are only stopped, and every task other than the channel's active poll tasks and its parse tasks is untouched |
| Msg.Reconcile | modules/s3db/msg.py:307-327 | disable is called iff the old record was enabled and the new flag is off; enable is called iff the new flag is on and the old record was not enabled or the form is a create form; otherwise nothing |
| Msg.ReconcileSettles | modules/s3db/msg.py:313-321 | saving a record with the flag it already has calls nothing |
| Msg.ClearLogin | modules/s3db/msg.py:967 | no other record of the table keeps `login`; only that flag can change, and the form's own record and other tables are unchanged |
| Msg.ClearEnabled | modules/s3db/msg.py:1123 | no other record of the GCM table stays enabled; only that flag can change, and the form's own record and other tables are unchanged |
| Msg.ChannelOnacceptFrame | modules/s3db/msg.py:307-327 | the normal onaccept processing changes at most the enabled flag of the form's own channel record |
| Msg.LoginExclusive | modules/s3db/msg.py:963-970 | after a Facebook or Twitter channel form saved with `login`, no other record of that table has `login` set |
| Msg.GcmExclusive | modules/s3db/msg.py:1119-1126 | after a GCM channel form saved enabled, no other GCM record is enabled |
| Msg.MessagingDb.IsParserEnabled | modules/s3db/msg.py:1283-1296 | the result is the parser_enabled rule on the current parser table |
| Msg.MessagingDb.ParserEnable | modules/s3db/msg.py:1300-1343 | the new tables and the message are those of the parser_enable specification; a missing parser is an error and changes nothing |
| Msg.MessagingDb.ParserDisable | modules/s3db/msg.py:1361-1395 | the new tables and the message are those of the parser_disable specification; a missing parser is an error and changes nothing |
| Msg.MessagingDb.ChannelEnable | modules/s3db/msg.py:177-225 | the new tables and the message are those of the channel_enable specification (see ChannelEnableEffect); the parser loop calls ParserEnable |
| Msg.MessagingDb.ChannelDisable | modules/s3db/msg.py:245-287 | the new tables and the message are those of the channel_disable specification (see ChannelDisableEffect); the parser loop calls ParserDisable |
| Msg.MessagingDb.ChannelOnaccept | modules/s3db/msg.py:307-327 | the tables become those after the call Reconcile chooses |
| Msg.MessagingDb.LoginOnaccept | modules/s3db/msg.py:963-970 | the other records of the table lose `login` when the form sets it, then channel_onaccept runs; no other record keeps `login` |
| Msg.MessagingDb.GcmOnaccept | modules/s3db/msg.py:1119-1126 | the other GCM records are disabled when the form is enabled, then channel_onaccept runs; no other GCM record stays enabled |
| Msg.MessagingDb.ParserOnaccept | modules/s3db/msg.py:1413-1429 | the tables become those after parser_enable, parser_disable or nothing, as Reconcile chooses |
| Shelter.StatusDefaults | modules/templates/CumbriaEAC/config.py:278-283 | the status options are Closed, Green, Amber and Red; the default status Green (line 569) is one of them, and the default list filter [3, 4, 5] (line 671) shows every option except Closed |
| Shelter.CheckEffect | modules/templates/CumbriaEAC/config.py:486-554 | the first live registration of the person at a shelter with that site gets status 2 and the check-in date (check-in) or status 3 and the check-out date (check-out), and nothing else changes; without such a registration nothing changes |
| Shelter.CheckIdempotent | modules/templates/CumbriaEAC/config.py:502-516 | checking in (or out) a second time at the same time changes nothing more |
| Shelter.RemoveLinks | modules/templates/CumbriaEAC/config.py:691 | `delete()` keeps exactly the links the query does not match |
| Shelter.CheckoutEffect | modules/templates/CumbriaEAC/config.py:674-698 | staff_checkout deletes exactly the addressed link, sets that staff member's site to None, leaves every other staff record, the shelters and the registrations unchanged and appends one check-out event (code 4) for the person at the shelter's site; a missing shelter or link raises |
| Shelter.CheckInEffect | modules/templates/CumbriaEAC/config.py:783-813 | staff_check_in sets the staff member's site to the shelter's, leaves every other staff record, the shelters and the registrations unchanged, deletes the other links of that staff member and no link of anyone else, and appends one check-in event (code 3); the new link is afterwards the staff member's only link |
| Shelter.OneLinkLeft | modules/templates/CumbriaEAC/config.py:803-807 | deleting the staff member's links with another id leaves exactly the new link |
| Shelter.ShelterDb.SiteCheck | modules/templates/CumbriaEAC/config.py:486-554 | the registrations become the check-in or check-out specification (see CheckEffect), the other tables are unchanged, and the registration onaccept is called with the updated registration only after an update and only when configured |
| Shelter.ShelterDb.StaffCheckout | modules/templates/CumbriaEAC/config.py:674-698 | the tables become the staff_checkout specification (see CheckoutEffect); when a row is missing the call fails and nothing changes |
| Shelter.ShelterDb.StaffCheckIn | modules/templates/CumbriaEAC/config.py:783-813 | the tables become the staff_check_in specification (see CheckInEffect); when a row is missing the call fails and nothing changes |
| Utils.IntValue | modules/core/tools/utils.py:83-86 | `int(record_id)`: an integer id converts to itself (texts are read as decimal numerals, see the next two rows) |
| Utils.NumeralIsInt | modules/core/tools/utils.py:84 | the decimal text of a number converts back to that number |
| Utils.NonNumericRefused | modules/core/tools/utils.py:83-86 | a text without any digit raises the ValueError, so nothing is stored |
| Utils.Session.GetLastRecordId | modules/core/tools/utils.py:56-68 | the stored id of the table when the session has RCVARS and the table in it, else None |
| Utils.Session.StoreLastRecordId | modules/core/tools/utils.py:71-92 | returns True iff the id converts to an integer; then a get for that table returns the integer, RCVARS gains exactly that table name and other tables keep their ids; on False the session is unchanged |
| Utils.Session.RemoveLastRecordId | modules/core/tools/utils.py:95-110 | always True; a table name removes only that table's id and keeps RCVARS present or absent as it was; no name removes the whole RCVARS entry |
| Utils.DictSet | modules/core/tools/utils.py:841-845 | `d[k] = v`: afterwards `k` maps to `v` and every other key maps to what it did |
| Utils.MatchOf | modules/core/tools/utils.py:834-847 | a non-string value never matches; a prefix match means the first len(term) characters, lowercased, equal the term; otherwise an address match means the key is "addr" and the term occurs in the lowercased value |
| Utils.AddrMatchFirst | modules/core/tools/utils.py:847-850 | an address match splits the lowercased value at the first occurrence of the term |
| Utils.SetIfNonEmpty | modules/core/tools/utils.py:843-854 | the key is written iff the string is non-empty; other keys are unchanged |
| Utils.FirstMatch | modules/core/tools/utils.py:834-856 | the entry annotated is the first matching one; every entry before it does not match |
| Utils.MatchDict.SetMatchStrings | modules/core/tools/utils.py:825-856 | the loop's new dictionary is the one where only the first matching entry (FirstMatch) is annotated with match_type and the match strings |
| Utils.PrefixMatchReconstructs | modules/core/tools/utils.py:839-846 | on a prefix match, match_type is the key, match_string keeps the original case and lowercases to the term, and match_string + next_string give back the value |
| Utils.AddrMatchReconstructs | modules/core/tools/utils.py:847-856 | on an address match, match_type is "addr", match_string lowercases to the term, and pre_string + match_string + next_string (absent parts empty) give back the value |
| Utils.QueryKey | modules/core/tools/utils.py:977 | `k` is never a string: the conditional expression binds only to the first tuple element, so `k` is the list of pieces or None |
| Utils.QueryFormatNeverMatches | modules/core/tools/utils.py:974-980 | as written, no query parameter is recognised as `format` |
| Utils.PathExtension | modules/core/tools/utils.py:981-986 | an extension is found iff some path segment contains a dot, and it contains no dot itself |
| Utils.GetExtensionFromUrl | modules/core/tools/utils.py:955-988 | None for an empty or missing URL; an extension is only found when urlparse succeeds, and it contains no dot |
| Utils.ExtensionFromLastSegment | modules/core/tools/utils.py:981-986 | for a path ending in `name.ext` the result is `ext`, case preserved |
| Utils.CutAtDot | modules/core/tools/utils.py:1011 | `p.split(".")[0]` contains no dot |
| Utils.WithExtension | modules/core/tools/utils.py:1014-1015 | only the last segment may change |
| Utils.SetExtension | modules/core/tools/utils.py:991-1022 | scheme, netloc, params, query and fragment are unchanged, and an empty path stays empty |
| Utils.SetExtensionSegments | modules/core/tools/utils.py:1009-1016 | the new path has as many segments as the old; each is the old one cut at its first dot, and the last one carries ".ext" iff the extension and the cut segment are non-empty |
| Utils.SetExtensionIdempotent | modules/core/tools/utils.py:1006-1022 | for a fixed extension, setting it twice gives the same URL as setting it once |
| Utils.TemplateKeysInOrder | modules/core/tools/utils.py:1183-1190 | for a template of literal text and `%(key)s` specifications, keys() returns the key names in order of appearance, repeats included |
| Utils.TemplateKeysExample | modules/core/tools/utils.py:1173-1175 | keys("%(first_name)s %(last_name)s") returns ["first_name", "last_name"] |
| Utils.NumericKeyIsNotTemplate | modules/core/tools/utils.py:1186-1189 | a key with a numeric conversion raises TypeError, so keys() returns None |
| Utils.Flatten | modules/core/tools/utils.py:814-822 | the flattened sequence holds no iterable, only leaves |
| Utils.FlattenAppend | modules/core/tools/utils.py:816-822 | flattening distributes over concatenation, so leaves come out in order |
| Utils.FlattenIdempotent | modules/core/tools/utils.py:814-822 | flattening a flat list changes nothing |
| Utils.FlattenNested | modules/core/tools/utils.py:817-820 | wrapping a list in one more level does not change its leaves |
| Utils.MakeLinks | modules/core/tools/utils.py:1069-1093 | the loop's result is the first segment followed by the linked rendering of the remaining quote-separated segments |
| Utils.MakeLinksIdentity | modules/core/tools/utils.py:1072-1093 | when make_link returns "" for every segment, the output equals the input |
| Strings.Split | modules/core/tools/utils.py:1072 | `s.split(c)` gives at least one piece and no piece contains the separator |
| Strings.JoinSplit | modules/core/tools/utils.py:1016 | joining the pieces of a split with the same separator gives back the string |
| Strings.SplitJoin | modules/core/tools/utils.py:1016 | splitting a join of separator-free pieces gives back the pieces |
| Strings.Find | modules/core/tools/utils.py:847-850 | the first position where the term occurs, or -1 exactly when it does not occur |
| Strings.Lower | modules/core/tools/utils.py:839 | lower-casing keeps the length and maps each character |
| Strings.Digits | modules/templates/RLPPTM/helpers.py:499 | the decimal numeral of a number consists of digits |
| Strings.DigitsRoundTrip | modules/templates/RLPPTM/helpers.py:499 | the decimal numeral of a number reads back as that number |
| Strings.FormatInt | modules/templates/RLPPTM/helpers.py:499 | `"%0wd" % x`: at least w digits for x >= 0, a leading minus sign otherwise |
| Strings.FormatIntValue | modules/templates/RLPPTM/helpers.py:499 | a zero-padded numeral reads back as its value |
| Strings.FormatIntWidth | modules/templates/RLPPTM/helpers.py:499 | below 10^w the padded numeral has exactly w characters |
| Strings.GroupedValue | modules/templates/RLPPTM/helpers.py:495 | the value of hex digits grouped by single underscores is below 16 to the power of the numeral's length |
| Strings.ParseHexDigits | modules/templates/RLPPTM/helpers.py:495 | `int(s, 16)` of a non-empty string of hex digits is the digits' value |
| Strings.ParseHexLeadingSpace | modules/templates/RLPPTM/helpers.py:495 | leading whitespace does not change `int(s, 16)` |
| Strings.ParseHexTrailingSpace | modules/templates/RLPPTM/helpers.py:495 | trailing whitespace does not change `int(s, 16)` |
| Strings.ParseHexSign | modules/templates/RLPPTM/helpers.py:495 | a `+` in front keeps the value, and a `-` in front of a text that does not parse still does not parse |
| Strings.ParseHexNegate | modules/templates/RLPPTM/helpers.py:495 | a `-` in front of a text that parses to x gives -x |
| Strings.ParseHexLeadingUnderscore | modules/templates/RLPPTM/helpers.py:495 | a text starting with an underscore raises ValueError (None) |
| Strings.ParseStrippedWithin | modules/templates/RLPPTM/helpers.py:495 | a value parsed from a stripped text of at most m characters lies strictly between -16^m and 16^m, and when negative, its sign taking a character, above -16^(m-1) |
| Strings.ParseHexBound | modules/templates/RLPPTM/helpers.py:495 | the value of `int(s, 16)` lies strictly between -16^len(s) and 16^len(s) |
| Strings.DecimalConcat | modules/templates/RLPPTM/helpers.py:499 | the value of two concatenated numerals is the first times 10^len(second) plus the second |
| Upgrade152.MarkedIff | modules/templates/RLPPTM/upgrade/1.5.2-1.5.3.py:54-73 | a realm ends up in `has_requesters` iff a selected membership (live, `pe_id` NULL or non-zero) names it, or has no realm and belongs to a user whose person entity lists it among its realms |
| Upgrade152.RequesterBackfill | modules/templates/RLPPTM/upgrade/1.5.2-1.5.3.py:75-95 | each selected organisation gets exactly one new REQUESTER tag, "Y" iff its pe_id is marked and "N" otherwise; afterwards every live organisation has a REQUESTER tag and a second run selects nothing |
| Upgrade152.RequesterUpgrade.FindRequesters | modules/templates/RLPPTM/upgrade/1.5.2-1.5.3.py:62-73 | the loop's set of marked realms is the one MarkedIff characterises |
| Upgrade152.RequesterUpgrade.InstallRequesterTags | modules/templates/RLPPTM/upgrade/1.5.2-1.5.3.py:75-97 | the tag table grows by exactly the back-fill tags, in selection order; `added` counts them; organisations and roles are unchanged |
| Upgrade152.RequesterUpgrade.Run | modules/templates/RLPPTM/upgrade/1.5.2-1.5.3.py:43-135 | the script fails iff the role import fails; then tags and roles are rolled back; otherwise the tags are back-filled and SUPPLY_REQUESTER is dropped; organisations never change |
| Upgrade154.SqlSum | modules/templates/RLPPTM/upgrade/1.5.4-1.6.0.py:64-65 | SQL SUM is NULL exactly when every value is NULL |
| Upgrade154.SqlSumTotal | modules/templates/RLPPTM/upgrade/1.5.4-1.6.0.py:64-68 | SQL SUM is the total of the non-NULL values, or NULL when there are none |
| Upgrade154.ReconcileEffect | modules/templates/RLPPTM/upgrade/1.5.4-1.6.0.py:61-87 | a checked program carries the credit and compensation sums of its live transactions; only those fields and the modification stamp change; it is untouched iff both already matched; a second check changes nothing |
| Upgrade154.FixedPrograms | modules/templates/RLPPTM/upgrade/1.5.4-1.6.0.py:49-56 | the program table keeps its length (deleted programs are not selected and stay as they are) |
| Upgrade154.PublicTagsEffect | modules/templates/RLPPTM/upgrade/1.5.4-1.6.0.py:153-162 | every selected facility without a PUBLIC tag gets one with value "Y"; every inserted tag is such a one; the number inserted is the number of rows without a tag |
| Upgrade154.ProgramUpgrade.FixBalances | modules/templates/RLPPTM/upgrade/1.5.4-1.6.0.py:46-89 | the loop leaves every program as ReconcileEffect describes, deleted ones untouched; other tables unchanged |
| Upgrade154.ProgramUpgrade.InstallOrgIds | modules/templates/RLPPTM/upgrade/1.5.4-1.6.0.py:94-123 | one OrgID tag per selected organisation, in order, as the 1.5.3 back-fill computes them; `added` counts them |
| Upgrade154.ProgramUpgrade.AddPublicTags | modules/templates/RLPPTM/upgrade/1.5.4-1.6.0.py:128-168 | the loop inserts the PUBLIC tags up to the first insert that fails, stops there and reports failure iff such an insert exists |
| Upgrade154.ProgramUpgrade.Run | modules/templates/RLPPTM/upgrade/1.5.4-1.6.0.py:46-197 | the script fails iff a PUBLIC insert or the role import fails; then programs and tags are rolled back; otherwise all three steps persist; transactions never change |
| Wrappers.DistinctOrder | modules/templates/RLPPTM/upgrade/1.7.1-1.7.2.py:65-75 | the restored links, like the workload keys of helpers.py:280, appear in the order in which they first occur in the input |
| Upgrade171.DistinctCount | modules/templates/RLPPTM/upgrade/1.7.1-1.7.2.py:63-77 | `restored` is the number of distinct pairs in the backup |
| Upgrade171.ServiceSiteUpgrade.Commit | modules/templates/RLPPTM/upgrade/1.7.1-1.7.2.py:126 | `db.commit()` makes the current tables the committed state and changes neither table |
| Upgrade171.ServiceSiteUpgrade.Rollback | modules/templates/RLPPTM/upgrade/1.7.1-1.7.2.py:59 | `db.rollback()` returns both tables to the committed state |
| Upgrade171.ServiceSiteUpgrade.RestoreLinks | modules/templates/RLPPTM/upgrade/1.7.1-1.7.2.py:38-77 | without a backup table the failed select is rolled back to the committed state; otherwise the link table is truncated and refilled by the loop with each pair once, the count is returned, and the backup table is dropped, which commits the restore |
| Upgrade171.ServiceSiteUpgrade.Run | modules/templates/RLPPTM/upgrade/1.7.1-1.7.2.py:38-127 | the script fails iff the CMS import fails; the rollback of a failure cannot undo a restore that the drop of the backup table committed, so with a backup the restored links persist either way; without one the tables are the committed ones; the end state is committed |
| Upgrade184.AddMissingEffect | modules/templates/RLPPTM/upgrade/1.8.4-1.8.5.py:71-81 | the inner loop keeps every existing tag, leaves the site with a live tag of every workflow name, and inserts only tags of that site, with the given value, for names the site lacked |
| Upgrade184.RowStepEffect | modules/templates/RLPPTM/upgrade/1.8.4-1.8.5.py:55-81 | after one facility the old tags are kept; a facility without a PUBLIC tag gets one with "N" first; the site has all four workflow tags; each new workflow tag is APPROVED iff the facility's PUBLIC tag was "Y", REVIEW otherwise |
| Upgrade184.BackfillEffect | modules/templates/RLPPTM/upgrade/1.8.4-1.8.5.py:39-84 | after the loop the old tags are kept as they were and every selected facility has a PUBLIC tag and the four workflow tags |
| Upgrade184.WorkflowUpgrade.AddMissingTags | modules/templates/RLPPTM/upgrade/1.8.4-1.8.5.py:71-81 | the inner loop's new table is the one AddMissingEffect describes, and its count is the number of inserted tags |
| Upgrade184.WorkflowUpgrade.AddWorkflowTags | modules/templates/RLPPTM/upgrade/1.8.4-1.8.5.py:54-84 | the loop's new table is the one BackfillEffect describes, and `added` counts every inserted tag |
| Upgrade184.WorkflowUpgrade.Run | modules/templates/RLPPTM/upgrade/1.8.4-1.8.5.py:39-133 | the script fails iff the CMS import fails, and then the tags are rolled back; otherwise the back-fill persists |
| Upgrade1101.DeliveryTag | modules/templates/RLPPTM/upgrade/1.10.1-1.11.0.py:102-106 | the DELIVERY tag is VIA_DC iff the organisation has a REQUESTER tag with value "Y", DIRECT otherwise |
| Upgrade1101.DeliveryTagsEffect | modules/templates/RLPPTM/upgrade/1.10.1-1.11.0.py:66-108 | every live test-station row without a DELIVERY tag gets its DELIVERY tag, every inserted tag comes from such a row, and `added` is their number |
| Upgrade1101.CentralTagsEffect | modules/templates/RLPPTM/upgrade/1.10.1-1.11.0.py:113-138 | every live warehouse without a CENTRAL tag gets one with "N", every inserted tag is such a one, and `added` is their number |
| Upgrade1101.DeliveryUpgrade.AddDeliveryTags | modules/templates/RLPPTM/upgrade/1.10.1-1.11.0.py:66-108 | the loop appends the DELIVERY tags of the selected rows lacking one, in order, and counts them; site tags are unchanged |
| Upgrade1101.DeliveryUpgrade.AddCentralTags | modules/templates/RLPPTM/upgrade/1.10.1-1.11.0.py:113-138 | the loop appends the CENTRAL tags of the live warehouses lacking one, in order, and counts them; organisation tags are unchanged |
| Upgrade1101.DeliveryUpgrade.Run | modules/templates/RLPPTM/upgrade/1.10.1-1.11.0.py:39-148 | the script fails iff the item category import fails, and then no tag is added; otherwise both tag steps persist |
| Fixup1126.SiteMapFirst | modules/templates/RLPPTM/upgrade/fixup-1.12.6.py:68-71 | an organisation is a key of `site_ids` iff some facility row belongs to it, and its value is the site of the first such row |
| Fixup1126.SiteMapEarliest | modules/templates/RLPPTM/upgrade/fixup-1.12.6.py:61-71 | with the rows ordered by creation time, the site chosen for an organisation is that of its oldest facility |
| Fixup1126.AssignedEffect | modules/templates/RLPPTM/upgrade/fixup-1.12.6.py:74-83 | a staff record changes iff it is a candidate (live, no site, of a test station) whose organisation maps to a truthy site; then only its site changes, to the site of its organisation's first facility row; the meta fields keep their values |
| Fixup1126.StaffFixup.BuildSiteMap | modules/templates/RLPPTM/upgrade/fixup-1.12.6.py:68-71 | the loop builds the map SiteMapFirst characterises |
| Fixup1126.StaffFixup.AssignSites | modules/templates/RLPPTM/upgrade/fixup-1.12.6.py:74-87 | the loop leaves the staff table as AssignedEffect describes, and `updated` counts the records that got a site |
| Fixup1126.StaffFixup.Run | modules/templates/RLPPTM/upgrade/fixup-1.12.6.py:39-87 | the staff table after the script is the candidates' organisations' first facility sites applied as AssignedEffect describes |
| Upgrade1181.VHash | modules/templates/RLPPTM/upgrade/1.18.1-1.18.2.py:65-69 | a facility has a verification hash iff its STATUS tag is APPROVED, and then it is the approval hash of its site and location |
| Upgrade1181.Hashes | modules/templates/RLPPTM/upgrade/1.18.1-1.18.2.py:60-82 | the table grows by exactly one tag per facility row without a DHASH tag |
| Upgrade1181.HashesEffect | modules/templates/RLPPTM/upgrade/1.18.1-1.18.2.py:61-82 | existing tags change only in their value; a DHASH tag no row points at is unchanged, one that changed holds the hash of a row pointing at it; the new tags are live DHASH tags, each with the site and hash of a row that had none, and every such row gets one |
| Upgrade1181.HashUpgrade.AddHashes | modules/templates/RLPPTM/upgrade/1.18.1-1.18.2.py:35-84 | the loop's new table is the one HashesEffect describes; `added` counts the rows without a DHASH tag and `added + updated` is the number of rows |
| Upgrade1181.HashUpgrade.UpdateManagerInfo | modules/templates/RLPPTM/upgrade/1.18.1-1.18.2.py:89-107 | one update_mgrinfo call per live organisation, in order (the group join is built but not used by the query) |
| Upgrade1181.ManagerInfoCalls | modules/templates/RLPPTM/upgrade/1.18.1-1.18.2.py:96-104 | an organisation is passed to update_mgrinfo iff it is live, whether or not it is a test station, and the call count is the number of live organisations |
| Upgrade1181.HashUpgrade.Run | modules/templates/RLPPTM/upgrade/1.18.1-1.18.2.py:35-117 | no step sets `failed`, so both steps always persist |
| Upgrade1182.MissingTypeTagsEffect | modules/templates/RLPPTM/upgrade/1.18.2-1.19.0.py:123-132 | a type gets an "N" MINFOREQ tag iff it lacks one, an "N" VERIFREQ tag iff it lacks one, and no other tag |
| Upgrade1182.TypeTagsEffect | modules/templates/RLPPTM/upgrade/1.18.2-1.19.0.py:102-136 | every selected type lacking MINFOREQ or VERIFREQ gets that tag with value "N", and every inserted tag is such a tag of a selected type |
| Upgrade1182.Verified | modules/templates/RLPPTM/upgrade/1.18.2-1.19.0.py:202-216 | the updated verification carries the new hash; its type check becomes VERIFIED unless the effective type check is ACCEPT; it is accepted iff the effective manager info is VERIFIED or ACCEPT |
| Upgrade1182.GenerateVerificationsKeys | modules/templates/RLPPTM/upgrade/1.18.2-1.19.0.py:186-219 | the loop gives a verification to every organisation it visits and removes none |
| Upgrade1182.GenerateVerificationsEffect | modules/templates/RLPPTM/upgrade/1.18.2-1.19.0.py:193-216 | with each organisation selected once, stored verifications stay as they were and each selected organisation gets its default record, updated as Verified describes unless it already has a hash |
| Upgrade1182.VerificationComplete | modules/templates/RLPPTM/upgrade/1.18.2-1.19.0.py:183-221 | after the step every live organisation has a verification |
| Upgrade1182.ApprovalStatus | modules/templates/RLPPTM/upgrade/1.18.2-1.19.0.py:279-284 | APPROVED iff all three values are APPROVED; otherwise REVIEW iff one of them is REVIEW; otherwise REVISE |
| Upgrade1182.Migrated | modules/templates/RLPPTM/upgrade/1.18.2-1.19.0.py:273-305 | the migrated approval holds the three tag values (a missing tag counts as REVISE) and their status; when approved, public keeps the PUBLIC tag's value (default "Y") with reason OVERRIDE iff it is "N"; otherwise public is "N" with the status as reason; advice and hash are copied |
| Upgrade1182.MigrateApprovalsKeys | modules/templates/RLPPTM/upgrade/1.18.2-1.19.0.py:265-307 | the loop gives an approval to every facility it visits and removes none |
| Upgrade1182.FirstVisit | modules/templates/RLPPTM/upgrade/1.18.2-1.19.0.py:266-270 | with one row per facility, the approval a row finds is the one the facility had before the loop |
| Upgrade1182.MigrateApprovalsUntouched | modules/templates/RLPPTM/upgrade/1.18.2-1.19.0.py:265-310 | a site the query does not return keeps its approval |
| Upgrade1182.MigrateApprovalsEffect | modules/templates/RLPPTM/upgrade/1.18.2-1.19.0.py:265-307 | with one row per facility, an approval that already had a hash is kept as it was and every other facility's approval is the migrated record |
| Upgrade1182.MigrateApprovalsHistory | modules/templates/RLPPTM/upgrade/1.18.2-1.19.0.py:306-307 | the approval history is updated once per migrated facility, in order |
| Upgrade1182.StatusOf | modules/templates/RLPPTM/upgrade/1.18.2-1.19.0.py:346-351 | a new commission is EXPIRED iff today is after 24 November 2022; otherwise CURRENT iff the provider's verification is accepted, else SUSPENDED |
| Upgrade1182.Commissions | modules/templates/RLPPTM/upgrade/1.18.2-1.19.0.py:344-363 | one commission per selected organisation |
| Upgrade1182.CommissionsEffect | modules/templates/RLPPTM/upgrade/1.18.2-1.19.0.py:344-363 | each selected organisation gets one commission dated today, ending on the fixed end date, previously CURRENT, with the status StatusOf gives and reason "N/V" exactly when suspended |
| Upgrade1182.SuspensionsEffect | modules/templates/RLPPTM/upgrade/1.18.2-1.19.0.py:365-371 | the facilities of an organisation are taken off the public list iff its new commission is not CURRENT, with reason SUSPENDED for a suspended commission and COMMISSION for an expired one |
| Upgrade1182.ProviderUpgrade.AddTypeTags | modules/templates/RLPPTM/upgrade/1.18.2-1.19.0.py:102-136 | the loop appends the missing type tags of the selected types, in order; `updated` counts the types; other tables unchanged |
| Upgrade1182.ProviderUpgrade.GenerateProviderVerifications | modules/templates/RLPPTM/upgrade/1.18.2-1.19.0.py:183-221 | the loop's verifications are those GenerateVerificationsEffect describes for the live organisations without one; other tables unchanged |
| Upgrade1182.ProviderUpgrade.MigrateFacilityApprovals | modules/templates/RLPPTM/upgrade/1.18.2-1.19.0.py:226-312 | the loop's approvals and history are those MigrateApprovalsEffect and MigrateApprovalsHistory describe; `added` counts the history updates |
| Upgrade1182.ProviderUpgrade.GenerateCommissions | modules/templates/RLPPTM/upgrade/1.18.2-1.19.0.py:317-376 | the loop appends the commissions CommissionsEffect describes and the update_all calls SuspensionsEffect describes; `generated` and `suspended` count them |
| Upgrade1182.ProviderUpgrade.Run | modules/templates/RLPPTM/upgrade/1.18.2-1.19.0.py:51-406 | the script fails iff one of the three imports fails, and then every change is rolled back; otherwise all four steps persist, the commissions using the new verifications |
| Upgrade1191.LastFlag | modules/templates/RLPPTM/upgrade/1.19.1-1.19.2.py:55-64 | a flag is set only by a tag row of that type and tag, to `value == "Y"`; a type without rows has no flag |
| Upgrade1191.AggregateKeys | modules/templates/RLPPTM/upgrade/1.19.1-1.19.2.py:55-61 | the `types` dictionary has one entry per type, and a type has an entry iff some selected tag row is of that type |
| Upgrade1191.AggregateEffect | modules/templates/RLPPTM/upgrade/1.19.1-1.19.2.py:55-64 | each entry's flags are the ones its last Commercial, VERIFREQ and MINFOREQ rows set, each being `value == "Y"` |
| Upgrade1191.InsertRequirementsEffect | modules/templates/RLPPTM/upgrade/1.19.1-1.19.2.py:66-76 | with one entry per type, the loop keeps every existing row and inserts, in dictionary order, one requirements row for each type with a true flag and no live row, and no other |
| Upgrade1191.FixNulls | modules/templates/RLPPTM/upgrade/1.19.1-1.19.2.py:79-80 | NULL natpersn and mpavreq become False on every row; non-NULL values and all other fields are kept |
| Upgrade1191.RequireMpav | modules/templates/RLPPTM/upgrade/1.19.1-1.19.2.py:90-99 | exactly the live rows of a test station type never modified by a user get mpavreq True; every other row is unchanged |
| Upgrade1191.VerificationStatus | modules/templates/RLPPTM/upgrade/1.19.1-1.19.2.py:137-142 | COMPLETE iff both checks are ACCEPT or VERIFIED; otherwise REVIEW iff one is REVIEW; otherwise REVISE |
| Upgrade1191.VerificationUpdateEffect | modules/templates/RLPPTM/upgrade/1.19.1-1.19.2.py:118-150 | COMPLETE manager info becomes VERIFIED; REVISE becomes the checked status when minimum manager information is required and ACCEPT otherwise; a N/V type check becomes REVIEW; the status is that of the local values; no other field changes, and a record is written iff it changes |
| Upgrade1191.StatusFromLocalValues | modules/templates/RLPPTM/upgrade/1.19.1-1.19.2.py:131-144 | for a REVISE/N/V record without the requirement, the stored status is REVISE although the stored values give REVIEW |
| Upgrade1191.UpdateVerifications | modules/templates/RLPPTM/upgrade/1.19.1-1.19.2.py:111-150 | the update loop keeps the table's length |
| Upgrade1191.MpavUpdate | modules/templates/RLPPTM/upgrade/1.19.1-1.19.2.py:183-194 | with the MPAV requirement a VERIFIED check is left alone, an APPROVED approval makes it VERIFIED, and otherwise it becomes REVISE unless it is under REVIEW; without the requirement it becomes ACCEPT unless it already is |
| Upgrade1191.Provide | modules/templates/RLPPTM/upgrade/1.19.1-1.19.2.py:180-181 | the provider's verification is its live record, or a default record appended when it has none; existing rows are kept |
| Upgrade1191.MpavStepEffect | modules/templates/RLPPTM/upgrade/1.19.1-1.19.2.py:176-200 | one facility changes only the MPAV check of its provider's verification, to the rule's value, and records the provider as modified iff the rule gives an update |
| Upgrade1191.MpavStepChanges | modules/templates/RLPPTM/upgrade/1.19.1-1.19.2.py:176-200 | a changed existing verification belongs to the facility's organisation, which is then recorded as modified |
| Upgrade1191.SetMpavGrows | modules/templates/RLPPTM/upgrade/1.19.1-1.19.2.py:174-202 | the `modified` set only grows over the loop, and only by organisations of the rows |
| Upgrade1191.SetMpavModified | modules/templates/RLPPTM/upgrade/1.19.1-1.19.2.py:174-202 | every pre-existing verification that changed belongs to an organisation in the `modified` set |
| Upgrade1191.RequirementsUpgrade.CollectFlags | modules/templates/RLPPTM/upgrade/1.19.1-1.19.2.py:55-64 | the loop builds the dictionary AggregateKeys and AggregateEffect describe |
| Upgrade1191.RequirementsUpgrade.MigrateRequirements | modules/templates/RLPPTM/upgrade/1.19.1-1.19.2.py:66-76 | the insert loop leaves the table InsertRequirementsEffect describes; `added` counts the inserts |
| Upgrade1191.RequirementsUpgrade.SetRequirementFlags | modules/templates/RLPPTM/upgrade/1.19.1-1.19.2.py:78-101 | the requirements table after both bulk updates is RequireMpav of FixNulls; `updated` counts the rows of the MPAV subset |
| Upgrade1191.RequirementsUpgrade.UpdateVerificationStatus | modules/templates/RLPPTM/upgrade/1.19.1-1.19.2.py:106-155 | the loop leaves every verification as VerificationUpdateEffect describes; `updated` counts the rows written |
| Upgrade1191.RequirementsUpgrade.SetMpavStatus | modules/templates/RLPPTM/upgrade/1.19.1-1.19.2.py:160-202 | the loop's verifications and `modified` set are those of the MPAV rule over all facility rows |
| Upgrade1191.RequirementsUpgrade.UpdateModified | modules/templates/RLPPTM/upgrade/1.19.1-1.19.2.py:204-206 | update_verification is called exactly once for each modified organisation |
| Upgrade1191.RequirementsUpgrade.Run | modules/templates/RLPPTM/upgrade/1.19.1-1.19.2.py:40-238 | the script fails iff the role import fails, and then every change is rolled back; otherwise all steps persist |
| Upgrade1195.CopyRinforeq | modules/templates/RLPPTM/upgrade/1.19.5-1.20.0.py:86-91 | every requirements row, deleted ones included, gets rinforeq equal to its minforeq; nothing else changes |
| Upgrade1195.Tags | modules/templates/RLPPTM/upgrade/1.19.5-1.20.0.py:167 | the tags of a staff row are exactly those of its SCP, CRC and REGFORM joins that exist |
| Upgrade1195.StartDate | modules/templates/RLPPTM/upgrade/1.19.5-1.20.0.py:166-168 | the start date is the creation time of one of the record's tags, and no tag is older |
| Upgrade1195.EndDate | modules/templates/RLPPTM/upgrade/1.19.5-1.20.0.py:202-205 | the end date is the latest of the tags' modification times, the staff record's modification time and the start date, so it is never before the start |
| Upgrade1195.MappedValue | modules/templates/RLPPTM/upgrade/1.19.5-1.20.0.py:185-188 | APPROVED iff the tag exists with value APPROVED; REJECTED iff it exists with value REJECT; N/A otherwise, and when there is no tag |
| Upgrade1195.RepresentativeStatus | modules/templates/RLPPTM/upgrade/1.19.5-1.20.0.py:190-196 | APPROVED iff the three values are APPROVED and the data check accepted, REVISE otherwise |
| Upgrade1195.GeneratedEffect | modules/templates/RLPPTM/upgrade/1.19.5-1.20.0.py:161-220 | the generated record is for the row's person and organisation, live, dated at the oldest tag, with the mapped values; its status follows RepresentativeStatus; it is active iff org_contact is true, the staff status is 1 and it is approved; exactly an inactive one has an end date, not before its start or any modification; it carries a hash iff it is approved and the hash is truthy |
| Upgrade1195.GenerateCounts | modules/templates/RLPPTM/upgrade/1.19.5-1.20.0.py:138-229 | the loop only appends records, records the organisation of every selected row, skipped or not, counts every record it generates and counts the approved ones among them |
| Upgrade1195.GenerateOrigin | modules/templates/RLPPTM/upgrade/1.19.5-1.20.0.py:152-208 | every generated record belongs to a selected row whose person had no live representative for the organisation before the loop |
| Upgrade1195.GenerateDistinct | modules/templates/RLPPTM/upgrade/1.19.5-1.20.0.py:152-208 | the generated records are live, and no two of them share a person and an organisation |
| Upgrade1195.GenerateCovers | modules/templates/RLPPTM/upgrade/1.19.5-1.20.0.py:140-208 | after the loop every selected row's person has a live representative for its organisation |
| Upgrade1195.FixDates | modules/templates/RLPPTM/upgrade/1.19.5-1.20.0.py:262-263 | a document without a date gets its creation date; the others are unchanged |
| Upgrade1195.RepresentativeUpgrade.UpdateRequirements | modules/templates/RLPPTM/upgrade/1.19.5-1.20.0.py:86-91 | the bulk update leaves the table CopyRinforeq describes and counts every row |
| Upgrade1195.RepresentativeUpgrade.FindRepresentative | modules/templates/RLPPTM/upgrade/1.19.5-1.20.0.py:153-157 | found iff the person has a live representative record for the organisation |
| Upgrade1195.RepresentativeUpgrade.GenerateRepresentatives | modules/templates/RLPPTM/upgrade/1.19.5-1.20.0.py:96-229 | the loop's table, organisation set and counters are those the generation rules give, as GenerateCounts, GenerateOrigin, GenerateDistinct and GenerateCovers describe |
| Upgrade1195.RepresentativeUpgrade.UpdateVerifications | modules/templates/RLPPTM/upgrade/1.19.5-1.20.0.py:234-252 | one `set_realm_entity` call on the deleted verification rows (`deleted > 0`, forced) is logged first; then update_verification is called exactly once for each collected organisation that is a test station, and `updated` counts the calls |
| Upgrade1195.RepresentativeUpgrade.FixDocumentDates | modules/templates/RLPPTM/upgrade/1.19.5-1.20.0.py:257-265 | the bulk update leaves the documents FixDates describes and counts those without a date |
| Upgrade1195.RepresentativeUpgrade.Run | modules/templates/RLPPTM/upgrade/1.19.5-1.20.0.py:44-295 | the script fails iff the CMS or the role import fails, and then every change, the logged calls included, is rolled back; otherwise all steps persist, with one realm update logged |
| Upgrade1201.FixedValue | modules/templates/RLPPTM/upgrade/1.20.1-1.20.2.py:52-59 | a default of N/A, ACCEPT or VERIFIED is taken; otherwise an ACCEPT still standing goes back to REVIEW and any other value is kept; only an ACCEPT default gives ACCEPT |
| Upgrade1201.FixedIdempotent | modules/templates/RLPPTM/upgrade/1.20.1-1.20.2.py:49-65 | the fixed record differs from the old one only in the type, MPAV and representative checks and the status, and fixing it again changes nothing, so a second run writes nothing |
| Upgrade1201.ProviderIndex | modules/templates/RLPPTM/upgrade/1.20.1-1.20.2.py:47-51 | the provider's verification is the first live record of the organisation, and there is none only when the organisation has no live record |
| Upgrade1201.LiveOrgsHaveProviders | modules/templates/RLPPTM/upgrade/1.20.1-1.20.2.py:40-51 | every organisation the loop visits has a provider record |
| Upgrade1201.FixAllRecords | modules/templates/RLPPTM/upgrade/1.20.1-1.20.2.py:46-65 | the loop keeps each record's organisation and deletion flag, fixes each visited provider's record (once or more) and leaves every other record as it was |
| Upgrade1201.FixAllCalls | modules/templates/RLPPTM/upgrade/1.20.1-1.20.2.py:64-72 | each write is followed by exactly one commission call for a visited provider, at most one per provider; it reinstates iff the final status is COMPLETE and suspends otherwise; the provider's record is then settled; `updated` counts the calls |
| Upgrade1201.VerificationFix.FixVerifications | modules/templates/RLPPTM/upgrade/1.20.1-1.20.2.py:37-86 | the loop's records, commission calls and count are those of the fix rule over the organisations of the live records; no step sets `failed`, so it always commits |

## Left out

- Schema, CRUD configuration, representation and HTML rendering of the
  modelled files: they declare tables and views, not behaviour.
- The code of `TestProvider`, `ProviderRepresentative` (`check_data`,
  `vhash`), `check_mgrinfo`, `update_verification`, `update_mgrinfo`,
  `TestStation.update_all`, `update_approval_history`, `is_org_group`,
  `pr_realm`, `facility_approval_hash` and the
  organisation model code is not part of this model: each is a function or
  boolean parameter of the members that call it.
- CSV/XSLT imports of CMS posts, organisation types, supply item
  categories and roles: their outcome is a boolean parameter; their
  effect on the tables they import into is not modelled.
- Rollback is a restore of the model's tables; `db.commit` leaves them as
  they are. Only 1.7.1-1.7.2.py commits part-way (pydal's `Table.drop`
  commits), and its model tracks the committed state. Output to stderr is not modelled.
- SQL queries: the rows a query selects are inputs, in table order; joins
  are given pre-applied (a membership of the SUPPLY_REQUESTER group, a
  test station's group membership).
- Python set iteration order (`organisations`, `modified` in 1.19.1 and
  1.19.5): the model picks the elements in an arbitrary order and proves
  each is visited once.
- Meta fields written by bulk updates and `update_record`
  (`modified_on`, `modified_by`) are kept or set to a time parameter only
  where the source names them.
- Upgrade1195.GeneratedEffect: the fields that `check_data` adds to the
  representative through its `update` dictionary are not modelled, and an
  `org_contact` of None is taken as false, which `active` becomes in the
  source (None is falsy).
- Upgrade1201.VerificationFix.FixVerifications: only the `orgtype`, `mpav`,
  `reprinfo` and `status` entries of `verification_defaults()` are written;
  other entries the defaults may carry are not modelled. A visited
  organisation without a provider record is skipped, a case that cannot
  arise (`Upgrade1201.LiveOrgsHaveProviders`).
- `urlparse`/`urlunparse` are a parameter and a record of parts; the URL
  returned by `s3_set_extension` is that record, not re-joined text.
- Utils.IntValue: `int()` accepts a text of an optional sign and decimal
  digits; surrounding whitespace and underscores, which Python also
  accepts, are not modelled.
- Strings.Lower: lower-casing covers ASCII letters only.
- The scheduler's execution of tasks, `schedule_task` internals and the
  outbox (modules/s3db/msg.py:462-511 holds only field defaults).
- `s3_get_extension` (the extension of the current request) and
  `Traceback.make_link` are parameters.
- The registration onaccept run after a shelter check-in or check-out,
  `update_super` and `s3_set_record_owner` are not modelled beyond the
  point at which they are called.
- Random uuids (`uuid.uuid4`) are a function parameter.
- Strings.ParseHex: `int(s, 16)` is modelled on ASCII text. Python also
  strips non-ASCII Unicode whitespace and reads non-ASCII Unicode decimal
  digits; the model refuses both.
- Upgrade1195.RepresentativeUpgrade.GenerateRepresentatives: the
  post-processing after each insert (1.19.5-1.20.0.py:211-213:
  `s3db.update_super`, `s3_set_record_owner` and
  `s3db.onaccept(rtable, representative, method="create")`) is not
  modelled. These calls would set the super-entity link, the realm and the
  owner of the new record; the model's representative rows carry none of
  those fields.
- Upgrade1195.RepresentativeUpgrade.UpdateVerifications: the
  `auth.set_realm_entity(vtable, vtable.deleted>0, force_update=True)`
  call at 1.19.5-1.20.0.py:239 is logged (`realmUpdates`, one
  `VerificationRealmUpdate` per run), but its effect is not modelled: the
  model's verification rows carry no realm field, and the code of
  `set_realm_entity` is not part of this model. As written, its query
  selects only the deleted verification rows.
