# A verified model of dns-entree

dns-entree edits DNS zones. This project models the parts of it whose behaviour is hardest to read off
the code, and proves what holds of them for every input, every run and every interleaving:

- **The zone-apply engine** (`template/process.go`). It walks the records of a resolved Domain Connect
  template over a working zone, deletes what each record conflicts with, adds the record, and logs both
  sides. The main theorem gives the deltas the declarative meaning that the loop never states: deleting
  ToDelete and adding ToAdd leaves exactly the originals that no template record displaces plus what was
  added. Order independence, idempotence, the ledger of a call, delegation and alias integrity follow, and
  the same is told for every ownership setting and for templates that merge SPF rules.
- **The migration protocol** (`api/handlers_migrate_stateful.go` over `migrate/store_json.go` and
  `migrate/store_json_unix.go`). Any number of handlers and sweepers run over one row, step by step, with
  optimistic versions and lock files modelled down to inodes. An inductive invariant gives mutual
  exclusion, no lost update, at most one apply, and the life of a row.
- **Graph walks over an arbitrary resolver**: the SES chain walk, the recursive SPF lookup count and the
  zone scrape, with soundness, exactness up to the depth caps, and inputs that show where the caps bite.
- **SPF merging and pushing**, **the apply-and-poll loop** of a migration, and **the signed apply URL**.

Each file holds one module. `lists.dfy`, `text.dfy`, `records.dfy` and `record_lists.dfy` hold lists, strings,
records and lists of records; `host_names.dfy`, `conflicts.dfy`, `spfm.dfy`, `zone_apply.dfy` and `process.dfy`
the engine; `zone_meaning.dfy`, `zone_turns.dfy`, `zone_theorems.dfy`, `zone_integrity.dfy`, `ownership.dfy`,
`spf_zone.dfy`, `zone_settings.dfy` and `spf_applied.dfy` its theorems; `store.dfy`, `verify_target.dfy`,
`protocol.dfy`, `protocol_invariant.dfy`, `protocol_theorems.dfy`, `protocol_access.dfy` and `protocol_runs.dfy`
the migration protocol; `ses_walk.dfy`, `ses_texts.dfy`, `spf_count.dfy`, `spf_exact.dfy`, `spf_texts.dfy`,
`scrape.dfy`, `bfs.dfy` and `scrape_walk.dfy` the walks; `merge_spf.dfy`, `merge_theorems.dfy`,
`merge_seams.dfy`, `merge_texts.dfy`, `push.dfy`, `migrate.dfy`, `query.dfy` and `apply_url.dfy` the rest. Loops
that update variables are methods, each proved equal to a specification function; the theorems are lemmas about
those functions, and each rule the functions rest on is also stated by itself, over the literal types, tokens
and fields of the source. `dafny verify dfyconfig.toml` checks everything.

## Terms

- The *identity* of a record is what recordKey prints: nine fields joined with bars, modelled as the tuple
  `Key`. `Records.RecordKeyIdentifies` justifies this for records whose type, name, service and protocol
  hold no bar; the content may hold one.
- A template record *displaces* an identity when one of the conflict rules deletes it (`ZoneMeaning.Matches`
  states the rules as a table).
- A template is *steady* over a zone when no record of it is kept out for looking like another one. Records of
  types that are always added are steady. A TXT or custom record is skipped when a record with its type, name
  and content exists, so the only such record in the zone or the template may be one with its own identity, and
  if the zone has that identity already, either the record displaces it itself or no template record does.
- The working zone, the two logs and the order of the records are `ZoneApply.Work`.
- `Pc` is where a handler or sweeper stands; the history of a row is every row ever written for it.

## Where the code and its documentation differ

The model follows the code in each case.

- `MergeSPF` is documented as idempotent (spf.go:71-73). An include with a blank in it can be torn apart by
  a later insertion: `MergeTheorems.BlanksBreakIdempotence`. `MergeIdempotentIff` gives the exact condition on
  record and includes, and `MergeSeams.MergeIdempotentIffWhole` a simpler one for ordinary includes.
- `VerifyAgainstNS` documents "not_yet_propagated" for no answer, "error" for lookups that all failed, NXDOMAIN
  included, and "mismatch" for another value (migrate/verify_target.go:135-140). The code says error for silence,
  not_yet_propagated for lookups that failed on the network, and mismatch for a type it never asks about.
  `VerifyTarget.DocumentedVerdictIff` says exactly when it gives the documented verdict.
- `recursiveSPFLookupCount` is documented to fetch the target of every include (spf.go:157-163). The mechanism is
  recognised in any case but cut off in lower case only, so of "INCLUDE:host" the whole token is looked up:
  `SpfTexts.CapitalsAreNotFollowed`, and exactly which host is opened in `SpfTexts.OpensIff`.
- `isSESInChain` is documented to find the goal anywhere up to depth 10 (esp/spf_classify.go:85-86). A host that
  is first met at depth 10 stays seen, so the goal can be three hops away and not be found:
  `SesWalk.DepthCapCanMiss`. The walk is exact when no simple include path has more than 11 hosts.
- The internal conflict check compares lower-case names, while the zone takes "" and "@" for the apex alike. The
  host "." + domain + "." resolves to "" (`HostNames.ResolvesEmpty`), so an NS and an address record at the apex
  can be accepted together: `Conflicts.ApexSpellingsEscapeTheCheck`, and exactly when in
  `Conflicts.AcceptanceIsZoneCompatibility`.
- Merging SPFM rules into a bare record leaves a second "v=spf1" token (template/process.go:1073-1083): so it does
  to "v=spf1 -all" (`Spfm.BareDoubles`), and exactly when in `Spfm.MergeTokens`.
- Each SPFM record is merged into one SPF record in the engine's zone, but the returned ToAdd also holds the
  intermediate ones (template/process.go:567-574, 780-784): two rules can leave a domain with two SPF records
  (`SpfApplied.TwoMergesLeaveTwo`), which receivers treat as an error, and exactly when in `SpfApplied.SpfsLeft`.
- Restoring an essential=Always record looks at type and name only, so it can land below a new delegation:
  `Ownership.RestorationCanOcclude`, and exactly when in `Ownership.LeftBelowIff`.
- `complete` is not final: from every reachable unexpired complete row a run goes on to save it as verifying
  (`ProtocolRuns.CompleteCanReopen`), and a verify does so exactly when some record is not served
  (`ProtocolTheorems.ReopensIff`). A verify that lands between the two saves of an apply leaves the migration
  verifying for good: every unexpired preview has such a run (`ProtocolRuns.MigrationCanStrand`), and the third
  row written decides it (`ProtocolTheorems.AwaitedIff`).
- A migration with a record of a type that verification does not ask for never completes, although the scrape
  collects TLSA and SSHFP records (migrate/convert.go:49-52): `ProtocolRuns.CompletesIff`.
- The scrape tells records apart by type, name, content and priority (migrate/scrape.go:262), so of two SRV records
  that differ in port only the first is kept, although the conversion keeps ports: `Scrape.ServicesCollapse`, and
  exactly when nothing is lost in `Scrape.DedupLosesNothingIff`.
- An SPF push upserts by name, so it replaces another TXT record of the domain when that one comes first: a domain
  whose only text is no SPF record loses it (`Push.FirstPushCanLoseText`), and `Push.PushSparesOthers` says exactly
  when nothing is lost.

## Model

| member | source | states |
|---|---|---|
| Records.RecordKeyIdentifies | template/process.go:1211-1223 | two printed keys are equal exactly when the nine-field identities are, if type, name, service and protocol hold no bar; content may |
| Records.RecordKeyPrints | template/process.go:1211-1223 | the nine fields of the printed key, in order, type in upper and name in lower case |
| Records.SameIdentityIff | template/process.go:1211-1223 | two records have one identity exactly when they agree in the nine fields, type and name up to case |
| Records.ApexSpellings | template/process.go:1166-1175 | two names are equal exactly when they are up to case, or one is "" and the other "@" |
| Records.NormalizeChanges | template/process.go:1266-1279 | normalising changes case only: of type, name and protocol, and of the content for A, AAAA, CNAME, MX, NS and SRV |
| Records.NormalizeTwice | template/process.go:1266-1279 | normalisation is idempotent and its result is in normal form |
| Records.IsChildOfByLabels | template/process.go:1179-1187 | being a child is exactly having the parent's labels as a proper suffix of the own ones; the apex has none |
| Records.IsChildOfStrictOrder | template/process.go:1179-1187 | the child relation is irreflexive and transitive, and does not tell apart names that nameEq identifies |
| RecordLists.Select | template/process.go:578-583 | the collecting loops return the matching records in zone order |
| RecordLists.CountKeys | template/process.go:1194-1198 | the counters hold, for each identity, how often it is to be removed |
| RecordLists.RemoveRecords | template/process.go:1190-1209 | the loop with counters equals front-to-back counted removal |
| RecordLists.RemoveKeys | template/process.go:1190-1209 | removal is exact bounded subtraction of identities as multisets |
| RecordLists.RemoveKeepsTail | template/process.go:1190-1209 | of the records with one identity the first ones go and the rest stay in order |
| RecordLists.RemoveSelected | template/process.go:578-585 | collecting by a rule and removing by identity leaves exactly the records that fail the rule, when the rule does not tell equal identities apart |
| RecordLists.DeduplicateRecords | template/process.go:1226-1241 | the loop equals keeping each identity the first time |
| RecordLists.DedupKeepsFirst | template/process.go:1226-1241 | of each identity the first occurrence is kept, and nothing else |
| RecordLists.DedupKeys | template/process.go:1226-1241 | each identity of the input occurs once in the output, no other occurs |
| RecordLists.DedupKeySet | template/process.go:1226-1241 | the set of identities does not change |
| Spfm.ProcessSPFM | template/process.go:1031-1092 | the scan and string surgery return the specified deletion and addition, including the two early exits |
| Spfm.FindSpf | template/process.go:1035-1042 | the record found is the first SPF record at the name, if any |
| Spfm.SpfsAfter | template/process.go:567-574 | a merge takes the first SPF record out and puts one that holds the rules last; all others stay in order |
| Spfm.SpfmKeepsCount | template/process.go:567-574 | n SPF records at the name become max(1, n) |
| Spfm.SpfmRepeat | template/process.go:567-574 | merging the same rules again is a no-op exactly when there was at most one SPF record or one of the first two held the rules |
| Spfm.SpfmRepeatCanChange | template/process.go:1059-1092 | a zone with two SPF records where the repetition changes the second one |
| Spfm.MergeKeepsTokens | template/process.go:1064-1092 | with a non-empty body the rules come after the version, and all body tokens and the terminator survive in order |
| Spfm.MergeDoublesVersion | template/process.go:1079-1083 | on a bare record the version token appears twice |
| Spfm.BareDoubles | template/process.go:1079-1083 | "v=spf1 -all" is such a record: after the merge "v=spf1" is there twice |
| Spfm.MergeTokens | template/process.go:1064-1092 | the merged tokens are version, rules, body, terminator exactly when the record has a body |
| Spfm.MergedWithEnd | template/process.go:1064-1092 | a record that ends in " -all", " ~all" or " ?all" gets the rules after the version and keeps its end |
| Spfm.MergedWithoutEnd | template/process.go:1064-1092 | one that ends in none of them gets " ~all" |
| Spfm.WritesFresh | template/process.go:1044-1057 | without an SPF record at the name one is written, field by field; the time to live is 6000 if the template has none |
| Spfm.WritesMerged | template/process.go:1035-1092 | the first SPF record at the name is replaced, with its own time to live, unless it holds the rules |
| Conflicts.CheckSameName | template/process.go:1104-1142 | the one-pass flag map accepts exactly when no pair at one lower-cased name clashes, and otherwise names the first record that completes a clash |
| Conflicts.CheckInternalConflicts | template/process.go:1095-1163 | the check accepts exactly the templates without a clashing pair and without a record below a delegation |
| Conflicts.ClashByType | template/process.go:1114-1141 | two records at one name clash exactly when neither is TXT, SPFM or REDIR and one is a CNAME, or one is NS and the other is not |
| Conflicts.CompatibleIgnoresOrder | template/process.go:1095-1163 | acceptance is invariant under permutation of the records |
| Conflicts.AcceptanceIsZoneCompatibility | template/process.go:1095-1175 | a template has no clash at a zone name and nothing below a delegation if and only if the check accepts it and no two records of clashing roles spell the apex "" and "@" |
| Conflicts.ApexSpellingsEscapeTheCheck | template/process.go:1107-1113 | for every domain, the hosts "." + domain + "." and "@" resolve to names at which an NS and an A record are accepted although they clash in the zone |
| HostNames.ResolvesEmpty | template/process.go:820-855 | a host resolves to the empty name exactly when it is the domain between two dots, up to case |
| HostNames.ApexHost | template/process.go:823-829 | "" and "@" mean the caller's host, or the apex when there is none |
| HostNames.RelativeHost | template/process.go:850-854 | a host without a final dot is relative to the caller's host |
| HostNames.AbsoluteHost | template/process.go:831-848 | a host with one is absolute: the domain is the apex, what is below it loses the domain, anything else is refused |
| ZoneApply.CutZone | template/process.go:578-585 | deleting by a rule logs the matching records and removes them by identity |
| ZoneApply.AddOnce | template/process.go:643-654 | a TXT or custom record is added unless one with its type, name and content is present |
| ZoneApply.ApplyEntry | template/process.go:554-750 | one turn of the switch does what the rule table says, for each of the dozen types |
| ZoneApply.ApplyEntries | template/process.go:553-750 | the loop is the fold of its turns over the template |
| ZoneApply.RunBalanced | template/process.go:553-750 | every turn keeps original + added = working zone + deleted, as multisets of identities |
| Process.ProcessRecords | template/process.go:478-814 | the whole call returns the specified deltas or rejects for the conflict check or a second APEXCNAME |
| Process.FindBlocked | template/process.go:759-770 | restoration is blocked exactly when some added record has the type and name of a candidate |
| Process.RestoreAll | template/process.go:773-776 | each candidate returns to the zone and leaves the deletion log once |
| Process.StampRecords | template/process.go:787-808 | every added record is stamped with the essential value of its first template record, "Always" by default |
| Process.AcceptanceIgnoresOrder | template/process.go:478-491 | acceptance of a template does not depend on the order of its records |
| Process.AcceptedIff | template/process.go:478-491 | a template is accepted exactly when no two records clash by their types, none that is not NS is below an NS, and at most one is APEXCNAME |
| Process.SupersededIff | template/process.go:516-541 | deleted up front are the records of the provider; with multi-instance those of the same service and ID only |
| Process.RestorableIff | template/process.go:530-541 | of these, candidates for restoration are the essential=Always ones of another service, without multi-instance |
| Process.BlocksIff | template/process.go:759-770 | a candidate is blocked by an added record of its type and name up to case |
| Process.AddedAreStamped | template/process.go:787-808 | what is returned as added was logged by the loop; a multi-aware call writes its own metadata over it, with the essential value of the first template record of that identity, "Always" by default |
| Process.NextCallOwns | template/process.go:507-541 | what a call added, the next call of the service replaces, and one of another service of the provider restores if it was essential |
| Process.RestorationIsAllOrNothing | template/process.go:752-778 | either all candidates are back in the zone and off the log or none is |
| Process.Ledger | template/process.go:493-778 | original + toAdd = working zone + toDelete as multisets of identities, for every zone, template and multi-aware setting |
| Process.ReturnedDeltas | template/process.go:780-784 | a returned log names each logged identity exactly once |
| ZoneMeaning.SweepsByRule | template/process.go:554-735 | the loop's tests select exactly what the table of rules displaces, type by type, and of the template's own additions no NS makes room for an NS and no SRV for an SRV |
| ZoneTurns.TurnByRules | template/process.go:553-750 | one turn keeps what the rules do not select, in order, puts the record last unless it is a TXT or custom record with a like one there, and logs both; merges apart |
| ZoneMeaning.RunDeletesOnlyDisplaced | template/process.go:553-750 | without SPFM records, whatever is deleted, original or added on the way, is displaced by some template record |
| ZoneMeaning.RunDeletesDisplaced | template/process.go:553-750 | every displaced original is deleted, whatever happened before its turn |
| ZoneMeaning.RunAdds | template/process.go:553-750 | whatever is added stems from a template record, and every record of a type that is always added is added |
| ZoneMeaning.RunHoldsEntry | template/process.go:553-750 | a TXT or custom record that is steady ends up added, or was there and no rule displaces it |
| ZoneTheorems.DeletedIffDisplaced | template/process.go:553-784 | an original identity is in ToDelete if and only if some template record displaces it |
| ZoneTheorems.AppliedZone | template/process.go:546-784 | deleting ToDelete and adding ToAdd leaves exactly the originals no template record displaces plus ToAdd |
| ZoneTheorems.TemplateIsApplied | template/process.go:546-784 | for a steady template the result is the untouched originals plus every template record |
| ZoneTheorems.ReplacingIsSteady | template/process.go:576-735 | templates of A, AAAA, CNAME, MX, NS, SRV, REDIR with backing records and APEXCNAME are steady over every zone |
| ZoneTheorems.OrderIrrelevant | template/process.go:546-784 | the applied zone does not depend on the order of the template records |
| ZoneTheorems.Idempotent | template/process.go:546-784 | applying a template that is steady over the zone together with its own records to its own result changes nothing |
| ZoneTheorems.FinalZoneByLog | template/process.go:780-784 | carrying the deltas out on the list of records gives the applied zone exactly when no displaced identity is listed twice in the original without being in ToAdd |
| ZoneTheorems.FinalZoneIsApplied | template/process.go:780-784 | for a steady template: exactly when no displaced identity that the template does not hold itself is listed twice in the original |
| ZoneSettings.DeletedIffNotRestored | template/process.go:752-784 | for any setting, an identity is in ToDelete exactly when it was logged more often than restoration took it off; ToAdd is what the loop added |
| ZoneSettings.AppliedIff | template/process.go:493-784 | for any template and ownership setting, SPF records at merging names apart: an identity is applied exactly when it was added, or was there and each record of it stays: owned ones by being restored, others by not being displaced |
| SpfZone.SpfsEvolve | template/process.go:553-750 | the SPF records of a name go through the whole run on their own, as a queue in which a merge takes the first record off and puts its replacement last |
| ZoneSettings.AppliedSpfIff | template/process.go:493-784 | for any template and ownership setting: the applied SPF identities at a name are told from the SPF records of the zone at that name alone |
| SpfApplied.SpfsLeft | template/process.go:567-784 | at a name with at most one SPF record, which the template touches by merging only, the deltas leave as many as there were changes of the text; at most one exactly when at most one rule is missing from the text when its turn comes |
| SpfApplied.WorkingZoneKeepsOne | template/process.go:567-574 | in the working zone a name with at most one SPF record still has at most one, however many rules are merged |
| SpfApplied.TwoMergesLeaveTwo | template/process.go:567-574 | two SPFM records at a name without an SPF record, the second rule not in the first text: the deltas leave two |
| ZoneIntegrity.NothingBelowDelegations | template/process.go:669-691 | with multi-aware off no non-NS record is strictly below a delegation of the template, whatever the zone and the order; with it on only a candidate for restoration can be |
| Ownership.LeftBelowIff | template/process.go:669-778 | for any setting, an identity strictly below a delegation is in the applied zone if and only if restoration is not blocked and every zone record with that identity is a candidate for it |
| Ownership.ReplacingLeavesBelowIff | template/process.go:757-778 | for templates of replacing types the same with the template's records in place of the log, so it can be told before the call |
| ZoneIntegrity.AliasesStayAloneIff | template/process.go:567-750 | exactly which accepted templates keep CNAMEs alone at their names in every zone: those that are so themselves, clear aliases from each name they use and everything from the names of their aliases, backing ones included |
| ZoneIntegrity.AddressTemplatesQualify | template/process.go:710-734 | accepted templates of A, AAAA, CNAME, APEXCNAME, NS and redirect records are among them, redirect hosts in any case |
| Ownership.PreDeletionIsExact | template/process.go:513-544 | ownership pre-deletion takes exactly the owned records if and only if no foreign twin comes before one |
| Ownership.RestorationCanOcclude | template/process.go:757-778 | a zone and a template where a restored record ends up below a new delegation |
| VerifyTarget.ScanAnswer | migrate/verify_target.go:63-72 | one answer matches exactly when it holds a record that equals the wanted one up to case, final dot and priority rule |
| VerifyTarget.VerifyRecordAgainstNS | migrate/verify_target.go:36-75 | matched exactly when some nameserver serves the record; gotAny exactly when some answered with data or the type cannot be verified |
| VerifyTarget.MatchesIff | migrate/verify_target.go:77-91 | a record matches up to the case of type, name and content and a final dot; for MX the priority counts |
| VerifyTarget.ServesIff | migrate/verify_target.go:36-75 | served means: the type is one of the eight that are asked for and some answer holds a matching record |
| VerifyTarget.VerdictIs | migrate/verify_target.go:141-161 | the four verdicts of a round, told from the answers |
| VerifyTarget.VerifyAgainstNS | migrate/verify_target.go:141-161 | the count and the verdict of every record of a round |
| VerifyTarget.AllServed | migrate/verify_target.go:141-161 | all records match exactly when each is served; without nameservers none is |
| VerifyTarget.DocumentedVerdictIff | migrate/verify_target.go:135-157 | the verdict is the documented one exactly when the type can be verified and some nameserver answered with data, or empty answers and failed lookups were both met or neither was (NXDOMAIN alone, or nobody asked) |
| Store.JsonStore.Create | migrate/store_json.go:110-137 | refuses exactly an empty or an existing ID, otherwise stores the row, with version 1 if it had none |
| Store.JsonStore.Get | migrate/store_json.go:141-153 | not found exactly for an unknown ID, expired exactly for a row whose expiry lies in the past, otherwise the stored row |
| Store.JsonStore.Update | migrate/store_json.go:158-181 | refuses exactly an empty or unknown ID and a version other than the stored one plus one, otherwise writes; nothing else changes |
| Store.JsonStore.Delete | migrate/store_json.go:184-202 | removes the row and no other |
| Store.JsonStore.SweepExpired | migrate/store_json.go:260-294 | removes exactly the expired rows and returns their number |
| ProtocolInvariant.DoKeeps | migrate/store_json.go:110-202 | every step of every handler, sweeper, crash and clock tick keeps the invariant of locks, data file, history and program counters |
| ProtocolInvariant.Reachable | api/handlers_migrate_stateful.go:240-426 | the invariant holds in every reachable state |
| ProtocolTheorems.MutualExclusion | migrate/store_json_unix.go:30-40 | in every run the lock excludes while the data file exists, although Delete unlinks lock files that others have open |
| ProtocolTheorems.NoLostUpdate | migrate/store_json.go:158-181 | at each write the stored row is the base of the save, and the save is a legal change of it |
| ProtocolTheorems.OneWinnerPerVersion | migrate/store_json.go:171-180 | of all saves submitted from one version at most one is written; the rows written form one chain |
| ProtocolTheorems.HistoryExtends | migrate/store_json.go:158-181 | written rows are never taken back |
| ProtocolTheorems.RefinesAtomicStore | migrate/store_json.go:110-202 | every step on the data file is nothing, a deletion, or one atomic Create or Update |
| ProtocolTheorems.DeletedStaysDeleted | migrate/store_json.go:184-202 | a deleted migration never comes back, whatever is still in flight |
| ProtocolTheorems.AtMostOneApply | api/handlers_migrate_stateful.go:261-357 | over every interleaving at most one apply request gets past the preview to applying save into the provider |
| ProtocolAccess.StrangersChangeNothing | api/handlers_migrate_stateful.go:101-139 | in every run in which no request carries the token, no row is written after the preview, the provider is not called, and the migration is deleted only once it has expired |
| ProtocolTheorems.RowLife | api/handlers_migrate_stateful.go:298-426 | preview is first and never again, complete follows awaiting_ns_change and comes only when there are records and each is of a type that can be verified, nothing follows failed, the terms never change |
| ProtocolTheorems.SweepRemovesOnlyExpired | migrate/store_json.go:278-291 | a sweep decides outside the lock, yet the row it removes has expired |
| ProtocolTheorems.VerifyDuringApplyStrands | api/handlers_migrate_stateful.go:361-371 | when the third row written is a verify's, every later row is verifying and has no nameservers |
| ProtocolTheorems.AwaitedIff | api/handlers_migrate_stateful.go:298-426 | once a third row is written, awaiting_ns_change occurs in the history if and only if it is that row's status |
| ProtocolTheorems.ReopensIff | api/handlers_migrate_stateful.go:404-409 | a verify of a reachable complete row saves verifying if and only if some record is not served |
| ProtocolRuns.CreateRefuses | migrate/store_json.go:119-137 | a create that finds a data file under its lock does not write |
| ProtocolRuns.VerifyRuns | api/handlers_migrate_stateful.go:387-419 | a verify by a new process with the right token, when nobody holds the lock, saves what the network tells as the next row |
| ProtocolRuns.RefusedRuns | api/handlers_migrate_stateful.go:101-139 | a request is refused and changes nothing when the migration is gone or expired, the token is missing or wrong, or the status does not allow it |
| ProtocolRuns.ApplyFinishes | api/handlers_migrate_stateful.go:311-371 | what an apply saves after its provider work, for each way it can end |
| ProtocolRuns.RemoveRuns | api/handlers_migrate_stateful.go:465-490 | a removal with the right token deletes the data file and the lock file |
| ProtocolRuns.MigrationCanStrand | api/handlers_migrate_stateful.go:298-411 | every unexpired preview has a run whose history is preview, applying, verifying |
| ProtocolRuns.CompleteCanReopen | api/handlers_migrate_stateful.go:393-411 | from every reachable state with an unexpired complete row some actions append a verifying row to the history |
| ProtocolRuns.CompletesIff | api/handlers_migrate_stateful.go:393-411 | from a reachable unexpired row with nameservers some actions lead to complete if and only if there are records and all are of types that can be verified |
| SesWalk.WalkForSES | esp/spf_classify.go:96-137 | the recursive method with its shared seen map equals the specified walk, for any resolver; it terminates |
| SesWalk.IsSESInChain | esp/spf_classify.go:87-94 | the entry point equals the walk from the cleaned target |
| SesWalk.WalkHostSound | esp/spf_classify.go:96-137 | true means that amazonses.com is reachable along include and redirect edges |
| SesWalk.WalkIsExact | esp/spf_classify.go:87-137 | when no simple include path from the target has more than 11 hosts, the answer is true if and only if the goal is reachable |
| SesTexts.TargetIff | esp/spf_classify.go:114-130 | a token points to a host exactly when it is written as an include of it, with or without a qualifier, or a redirect to it, with or without a final dot |
| SesTexts.EdgesIff | esp/spf_classify.go:108-130 | the walk goes from a host to exactly those its SPF texts mention in an include or redirect |
| SesTexts.FoundIffSaid | esp/spf_classify.go:87-137 | on short paths the answer is true if and only if a chain of records, read letter by letter, leads to amazonses.com |
| SesWalk.SmallGraphIsShort | esp/spf_classify.go:97-99 | with at most n hosts in play no simple path has more than n |
| SesWalk.DepthCapCanMiss | esp/spf_classify.go:97-100 | a resolver with twelve hosts where the goal is three hops from the target and the answer is false |
| SpfCount.CountSPFLookups | spf.go:234-251 | the surface count is the number of tokens that cost a lookup |
| SpfTexts.CostlyIff | spf.go:238-247 | a token costs a lookup exactly when in lower case it is a or mx or starts with a:, mx:, ptr:, exists:, include: or redirect= |
| SpfTexts.SurfaceCountIs | spf.go:234-251 | the count of a record written from mechanisms, in any case, is the number of those that look something up |
| SpfCount.RecursiveSPFLookupCount | spf.go:164-200 | the recursive method equals the specified count, error path included; it terminates for any resolver |
| SpfCount.RecurseIntoHost | spf.go:202-219 | one opening equals its specification |
| SpfCount.CountRecordOnce | spf.go:202-219 | no host is looked up twice, none that was seen before, and the seen set grows by exactly the hosts looked up |
| SpfCount.CountRecordSums | spf.go:164-219 | when no lookup fails the total is the surface count of the root plus that of each record opened at depth at most 10 |
| SpfTexts.OpensIff | spf.go:182-197 | the host a token has opened is the one its include or redirect names; the whole token when the name of the mechanism has a capital |
| SpfTexts.CapitalsAreNotFollowed | spf.go:182-191 | "INCLUDE:host" costs a lookup but host is not opened |
| SpfTexts.FirstSpfIs | spf.go:213-218 | of a host's texts the first that starts with v=spf1, up to case and blanks, counts |
| SpfTexts.CountFails | spf.go:202-219 | the count fails exactly when a lookup does, and that is the last one |
| SpfExact.CountIsExact | spf.go:164-219 | when every reachable host answers and no chain of different hosts is longer than 10, exactly the reachable hosts are opened, each once, and every one is counted; compare section 4.6.4 of RFC 7208 |
| SpfExact.SmallGraphIsShort | spf.go:164-167 | that is so when at most 10 hosts are in play and all answer |
| SpfExact.CountIgnoresOrder | spf.go:164-219 | then permuting the tokens of the root record leaves the count unchanged |
| Scrape.TakeAnswer | migrate/scrape.go:221-250 | one answer contributes its in-zone convertible records and queues its in-zone CNAME targets |
| Scrape.ConvertsIff | migrate/convert.go:15-54 | an answer record converts to exactly the record with its fields, owner and targets but for a final dot |
| Scrape.FoundIff | migrate/scrape.go:204-230 | what is found at a name is exactly what usable answers about it carry with an owner in the zone |
| Scrape.HopsIff | migrate/scrape.go:232-238 | the names queued from a name are exactly the in-zone targets of its in-zone CNAME answers |
| Scrape.InZoneIff | migrate/convert.go:56-61 | in the zone are its name and what ends in a dot and its name, up to case and a final dot |
| Scrape.QueryName | migrate/scrape.go:204-251 | all record types of a name contribute in order |
| Scrape.DedupRecords | migrate/scrape.go:258-270 | the loop equals keeping each dedup key the first time |
| Scrape.DedupExact | migrate/scrape.go:258-270 | no key twice, every key still there, every record from the input |
| Scrape.DedupKeyIff | migrate/scrape.go:262-262 | two records share a dedup key exactly when they agree in type, name up to case, content and priority |
| Scrape.DedupLosesNothingIff | migrate/scrape.go:258-270 | every record stays exactly when no two different ones agree in type, name, content and priority |
| Scrape.ServicesCollapse | migrate/scrape.go:262-262 | of two SRV records that differ in weight and port only the first stays |
| Bfs.LevelsFound | migrate/scrape.go:200-252 | in a first-in first-out run all names within k hops are listed once all items nearer than k are expanded |
| Bfs.AfterRounds | migrate/scrape.go:200-252 | with an empty queue the names listed are exactly those within the depth cap |
| Bfs.WithinIff | migrate/scrape.go:200-252 | within k hops are exactly the names to which a way of at most k hops leads from a seed |
| ScrapeWalk.EnqueueSeeds | migrate/scrape.go:181-189 | the seeds are queued once each at depth 0 |
| ScrapeWalk.SeedsAre | migrate/scrape.go:181-189 | the seeds are the domain for "@" and label.domain for any other label, in lower case, without a final dot |
| ScrapeWalk.IteratedScrape | migrate/scrape.go:163-256 | for any answers the loop ends and queries exactly the names within four in-zone CNAME hops, each once and at its distance; every returned record is carried, field by field, by an answer about one of them, and of all that is carried so each dedup key is returned, none twice |
| ScrapeWalk.ReturnedInZone | migrate/convert.go:56-60 | every returned record is the zone's or below it, and no key occurs twice |
| MergeSpf.BuildFresh | spf.go:82-93 | the fresh record, with and without includes |
| MergeSpf.FindAdditions | spf.go:105-110 | the additions are the include tokens not found as substrings, in order |
| MergeSpf.InsertAdditions | spf.go:115-133 | the additions go before the first mark in order of preference, else at the end with a terminator |
| MergeSpf.MergeSPF | spf.go:74-155 | value, flags and lookup count, with the fall-back to the surface count when the recursive one fails |
| MergeTexts.FreshIs | spf.go:82-93 | a fresh record is v=spf1, the includes in order, and ~all |
| MergeTexts.MergedIs | spf.go:95-136 | the value and flags of a merge in each case; additions go before the first of " -all", " ~all", " ?all", " +all" and " redirect=" that occurs, else at the end with " -all" |
| MergeTheorems.MergeIdempotent | spf.go:71-136 | for includes without blanks merging again changes nothing, and every include is in the value |
| MergeTheorems.MergeIdempotentIff | spf.go:104-135 | for any includes: merging again changes nothing exactly when each include the record holds occurs on one side of the insertion or is made up again across it |
| MergeTheorems.UnbrokenIsWhole | spf.go:115-133 | a text without blanks is never torn by the insertion |
| MergeSeams.TornNotRecreated | spf.go:115-133 | an include without an include token inside or at its end, once torn, is not made up again by additions without blanks |
| MergeSeams.MergeIdempotentIffWhole | spf.go:104-135 | for such includes merging again changes nothing exactly when none that the record holds lies across the insertion |
| MergeTheorems.BlanksBreakIdempotence | spf.go:115-123 | two includes, one with a blank, for which merging again changes the record |
| MergeTheorems.MergeTokens | spf.go:104-135 | the old tokens survive in order around one block of new includes, and the surface count grows by exactly their number |
| Push.FakeProvider.constructor | internal/fakeprovider/fakeprovider.go:20-22 | a new provider has no records |
| Push.WrittenIsCurrent | internal/fakeprovider/fakeprovider.go:31-46 | the SPF record that was written is the one the next read finds for the domain |
| Push.FakeProvider.SetRecord | internal/fakeprovider/fakeprovider.go:35-46 | the first record with the name is replaced, or the record is appended; other types do not change |
| Push.FindSpf | push.go:199-205 | the first SPF text of the domain |
| Push.PushSPFRecord | push.go:188-234 | result and records after a push, for a provider that works, cannot read or cannot write |
| Push.CurrentIs | push.go:199-205 | the current record is the first text of the domain that starts with v=spf1 in any case |
| Push.PushedIs | push.go:207-231 | status, values and records after a push, field by field, outage by outage |
| Push.PushTwice | push.go:207-223 | for includes without blanks, a push after a push writes nothing, also when writing would fail |
| Push.PushSparesOthers | push.go:219-219 | the write replaces the SPF record that was read, or adds one, exactly when no other text of the domain comes first |
| Push.FirstPushCanLoseText | push.go:219-219 | a domain whose only text is no SPF record loses it to the first push, whatever the includes |
| Migrate.ApplyAll | migrate/migrate.go:117-133 | each write that fails gives one result and one error, in order; the rest are applied; the limiter aborts the run at its first refusal, with what failed before it |
| Migrate.PollRound | migrate/migrate.go:140-152 | one round splits the pending records into decided ones and ones to ask again |
| Migrate.PollUntil | migrate/migrate.go:136-175 | polling ends for any network and says how: all decided, deadline passed or cancelled; nothing is lost on the way |
| Migrate.PhaseB | migrate/migrate.go:115-187 | every zone record gets exactly one result, also on cancellation; the errors are one for each failed write, and the cancellation or one for each record that differed |
| Migrate.FirstAnswerDecides | migrate/migrate.go:140-152 | a written record has the verdict of the first round in which any nameserver answered, and none if all were silent |
| Migrate.VerdictInIs | migrate/migrate.go:140-152 | a round's verdict on a record, told from the answers |
| Migrate.ResultsCoverZone | migrate/migrate.go:115-187 | the records of the results are the zone records as multisets |
| Query.UnescapeEscape | domainconnect/apply_url.go:79-79 | form encoding loses nothing; section 2.1 of RFC 3986 |
| Query.UnescapeEncode | domainconnect/signing.go:102-105 | the signed encoding, with blanks as %20, decodes to the value and holds no separator |
| Query.EscapesTo | domainconnect/apply_url.go:79-79 | letters, digits and - _ . ~ stay, a blank becomes a plus, any other byte its two upper-case hex digits |
| Query.NameSurvivesIff | domainconnect/signing.go:100-101 | names are written unencoded: a name comes back from a query if and only if it holds none of & = ; % + |
| ApplyUrl.Sink | domainconnect/dctest/dctest.go:277-279 | the inner loop inserts one string into the sorted part |
| ApplyUrl.SortStrings | domainconnect/dctest/dctest.go:275-281 | the in-place loop leaves the insertion-sorted contents |
| ApplyUrl.SortSorts | domainconnect/dctest/dctest.go:275-281 | the result is in bytewise order and a permutation |
| ApplyUrl.LessIff | domainconnect/dctest/dctest.go:277-277 | the order of names is by the first different byte, a name before its extensions |
| ApplyUrl.SortIgnoresOrder | domainconnect/signing.go:90-94 | the sorted names do not depend on the order in which the map was walked |
| ApplyUrl.SortAndSignParams | domainconnect/signing.go:89-113 | the text is the canonical one for the parameters, and what is signed is that text |
| ApplyUrl.SignedTextParses | domainconnect/signing.go:95-106 | parsing the signed text gives every parameter back, once |
| ApplyUrl.SignedTextInjective | domainconnect/signing.go:89-113 | different parameters never share a signed text |
| ApplyUrl.BuildApplyURL | domainconnect/apply_url.go:42-81 | which fields are required, and the URL with key and signature after the signed text |
| ApplyUrl.AssembledAre | domainconnect/apply_url.go:60-73 | what is signed: domain, host, redirect_uri and state when given, and the template variables, which win |
| ApplyUrl.UrlIs | domainconnect/apply_url.go:79-81 | where base, provider, service, query, key and signature go in the URL |
| ApplyUrl.CopyRest | domainconnect/dctest/dctest.go:239-247 | the server keeps every parameter but key and sig with all its values |
| ApplyUrl.VerifySignature | domainconnect/dctest/dctest.go:232-273 | valid exactly when there is a signature and it checks against the reconstructed text |
| ApplyUrl.FullQueryParses | domainconnect/apply_url.go:79-79 | the full query parses to the parameters plus key and sig |
| ApplyUrl.ServerSeesSignedText | domainconnect/dctest/dctest.go:232-273 | what the server reconstructs from the URL is byte for byte what was signed, in whatever order the maps are walked |

## Left out

- Resolution of templates: JSON, variable substitution and field validation; of the resolution of hosts only the
  names it yields. The engine starts from resolved records with their TXT conflict mode and prefix already
  substituted. Of their normal form the theorems ask for the upper-case type only: REDIR and SPFM records are
  not normalised otherwise.
- HTTP, JSON and XML encoding, middleware, metrics, the CLI and the widget; message texts and warnings.
- Cryptography, UUIDs and random tokens: signing and checking are arbitrary functions, the ID of a new migration is
  fresh, tokens are compared as strings. A generated multi-aware unique ID is a parameter.
- Providers, zone adapters, resolvers and DNS servers are arbitrary functions or choices of the environment; a
  resolver answers the same for the length of one walk, and within one polling round equal records get equal answers.
- The handlers are steps of a state machine over one migration, not methods of a class, because what matters is how
  they interleave. Temp files and renames are one atomic write. Windows locks and the SQLite backend are not modelled.
- List with its filters and paging, CreatedAt, UpdatedAt and the 64-bit wrap-around of versions.
- Store.JsonStore.SweepExpired: the sequential store removes while it walks a fixed listing; a row that another
  process removes or renews meanwhile is the subject of ProtocolTheorems.SweepRemovesOnlyExpired.
- The record's provider ID field, which no modelled operation reads.
- Unicode: strings are ASCII for case and white space, and a character of a query is one byte.
- Parsing a URL into its raw query and the path of the request are not part of this model, so a '#' in a parameter name,
  which would cut the query short, is not seen by Query.NameSurvivesIff.
- Cancellation and rate limiting of a scrape, AXFR, and its warnings; the number of record types is a parameter.
- ScrapeWalk.IteratedScrape: the server answers depend on the name and type only, not on the time of the query.
- The classification catalogue around isSESInChain, and pushes of TXT, CNAME and other records, which add only easy
  members. Post-push verification does not influence what is written.
- ZoneTheorems.AppliedZone: sets of identities, with multi-aware off and without SPFM records; any setting and any
  template is the subject of ZoneSettings. FinalZoneIsApplied says when the list of records agrees.
- SpfApplied.SpfsLeft: multi-aware off, at most one SPF record beforehand, and no other rule that touches it; the
  general form is ZoneSettings.AppliedSpfIff.
- ZoneTheorems.TemplateIsApplied: asks for a steady template, since a TXT or custom record that looks like one already
  present is skipped.
- Bfs.AfterRounds: stated for any graph and depth cap; the scrape uses four.
