# Verified model of the offline sync protocol, the Markdown store and their neighbours

This project models the parts of the repository whose correctness is hard to see from
any one function, and proves what they promise over every input, every run and every
reachable state.

- **Signed sync** (`CanonicalJson`, `CanonicalShape`, `JsonSource`, `Envelopes`, `Sync*`).
  The client keeps an immutable outbox, an immutable inbox and a replaceable `state.json`; it survives failed saves,
  a crash between a durable row and a durable state, lost, repeated, delayed and tampered
  responses, expired inbox rows and changing trusted keys. `SyncState` says what each
  operation computes, `SyncClient.Client` is the client as an object whose methods compute
  it, `SyncServer.Provider` is the reference ledger, and `SyncRuns` puts both into one
  step system. `SyncTheorems`, `SyncQuarantine`, `SyncDraining` and
  `SyncReceiving` state the promises over its runs; `SyncAnswers` says which answer the
  client gives to any envelope and any directory, and `SyncLedger` which the server gives
  to any request, honest or not.
- **Markdown store** (`Markdown*`). A parser and a printer with two nested quoting layers;
  what a rewrite makes of a file, line by line, and exactly when reading it again gives
  the same document. `MarkdownOutline`, `MarkdownHead` and `MarkdownValues` say in
  characters what hand-written bodies, frontmatter and values read as.
- **Event journal** (`EventRecords`, `EventLog`, `EventMeaning`, `Journal*`).
  Checked event files on top of the Markdown store, a one-pass dismissal index, and a
  content-addressed plan applied in durable phases that may stop after any write;
  `JournalMeaning` says what such a plan does with each event.
- **Verification jobs** (`Jobs`, `JobStates`). A mutex, a wait group and cancellation, as
  steps of any number of threads interleaved at the lock boundaries.
- **Three algorithms** (`EditDistance`, `Disclosure`, `BriefTrim`).

Two kinds of members appear in the table below. Methods of classes and methods with
loops follow the Go code statement by statement and are proved to compute a function
of the model. Lemmas state the properties of those functions.

## Findings

Where a natural expectation turned out false of the code, the code is modelled as it is,
and the exact condition under which the expectation holds is proved.

- `Enqueue` copies the configured route, key id and producer version into rows without
  looking at them and `Open` checks them in every row. A client configured with an empty
  producer version opens, enqueues one row, and can never be opened again. A client whose
  configuration gives a peer's key id another key is refused as long as it retains a row
  of that peer, while dropping the key id altogether is accepted
  (`SyncTheorems.OpenRefusesExactly`, `SyncWitnesses`).
- `Sync` receives every envelope of a response before it moves the acknowledgement. A
  refused envelope therefore keeps the backlog where it is for as long as the server
  sends it, and the backlog drains exactly by the rounds in which everything is received
  (`SyncDraining.BacklogDrains`, `SyncReceiving.AllReceivedExactly`,
  `SyncWitnesses.StrangerKeepsBacklog`).
- `Append` computes the checksum over the trimmed body, while a reader computes it over
  what is left once headings have been taken out and CRLF has become LF. An event whose
  body has a heading line outside a code fence, or a CRLF line end, is written and is
  from then on unreadable (`EventRecords.AppendReadable`, `EventRecords.LostBodies`).
- A rewrite drops the blank lines before a heading that comes first, or of a body that has
  nothing else, and a block that is one empty line; it writes key lines and headings one
  way, blanks a frontmatter line `: v` with an empty key together with its block, puts a
  blank line into empty frontmatter, an empty frontmatter before a leading rule and a line
  feed at the end. Everything else stays line by line (`MarkdownRewrite.FileRewritten`),
  and a file is left as it is, byte for byte, exactly when nothing of the kind applies to
  it (`MarkdownRewrite.FileStays`; `MarkdownWitnesses.BlankBlockDropped` and
  `BlankLinesMoved`).
- The rewrite itself reads as the same document unless a value was lost to an empty key,
  blank lines left behind by `:` become the block of the key above, a body that opens with
  a rule under no frontmatter gains one blank entry, or a line of it ends in CR
  (`MarkdownRewrite.RoundTrip`; one file for each in `MarkdownWitnesses`). The last case
  needs CR CR LF in the file, of which one pass over CRLF leaves a CRLF behind, or a CR
  at its very end (`MarkdownRewrite.CleanRaw`). In every case the keys, their values and
  the sections but for CRLF in them survive (`MarkdownDoc.RewriteKeeps`).
- An empty element of a list is not there when the list is read back
  (`MarkdownCodec.ListReturnsExactly`, `MarkdownWitnesses.EmptyElementLost`).
- The one-pass dismissal flags differ from `DismissedIDs` when a dismissal is older than
  the event it names, or is in the archive only (`EventLog.IndexAgrees`, and one log for
  each in `EventWitnesses`).

## Assumptions

- Ed25519 is any signature scheme that accepts what it produced, and for
  `Envelopes.TamperedFails` one whose signatures fit one text each; SHA-256 and the checksum
  are injective functions with hexadecimal values; payload validation is one predicate.
- An envelope stands for its canonical text wherever the client keeps the text:
  `Envelopes.CanonicalInjective` is the licence for that.
- `createJSON` and `writeJSONAtomic` either happen or do not. Route and signing key are
  fixed over a run, and the transport is given the client's acknowledged sequence.
- Event ids are 26 characters long and distinct; those of new rows and new dismissals are new.

## Model

| member | source | states |
|---|---|---|
| CanonicalJson.ValueReads | internal/cloudsync/client.go:779-831 | A reader of canonical text recovers every null, boolean, string, integer, array and object and stops exactly where the text stops, whatever follows |
| CanonicalJson.StringReads | internal/cloudsync/client.go:779-831 | The escaping of strings, control and HTML characters included, is self-delimiting and can be undone for every string |
| CanonicalJson.TextInjective | internal/cloudsync/client.go:779-831 | Equal signed bytes mean equal values |
| CanonicalJson.CanonicalizeIdempotent | internal/cloudsync/client.go:765-777 | Canonical text is canonical: canonicalizing again changes nothing |
| JsonSource.SourceCanonical | internal/cloudsync/client.go:765-777 | Of a source text without white space and with strings in the canonical escape, whose members come in any order and any number of times at every depth, the canonical text is that of its value, in which the last of repeated members counts |
| JsonSource.MemberOrderIrrelevant | internal/cloudsync/client.go:808-826 | Two such texts that differ in the order of members and in overridden repeats, at any depth, have the same canonical text |
| CanonicalJson.WriteCanonical | internal/cloudsync/client.go:779-831 | The writer appends exactly the canonical text to its buffer, and fails exactly on values that contain a number that is not a 64-bit integer |
| CanonicalJson.Canonical | internal/cloudsync/client.go:765-777 | The canonical text of a decoded value, or the report that there is none |
| CanonicalShape.MembersAscend | internal/cloudsync/client.go:808-826 | Members are written in ascending order of their names by first difference: any list of the names in that order gives the text |
| CanonicalShape.EscapesAre | internal/cloudsync/client.go:779-831 | How each character of a string is written: the short escapes, HTML markup and the line separators by four lower-case hex digits, everything else as itself |
| CanonicalShape.TextSafe | internal/cloudsync/client.go:779-831 | No canonical text holds a control character, a line break, markup or a line separator, whatever is in the value |
| CanonicalShape.WritableAre | internal/cloudsync/client.go:787-800 | Of numbers exactly the 64-bit integers can be written, of collections those whose parts can, and everything else |
| Envelopes.CanonicalInjective | internal/cloudsync/client.go:755-761 | Two envelopes have the same canonical text if and only if all their fields, payload and integrity block included, are the same |
| Envelopes.SignVerifies | internal/cloudsync/client.go:727-753 | Verify accepts whatever Sign produced, and no other envelope has the text that was signed |
| Envelopes.TamperedFails | internal/cloudsync/client.go:741-761 | Under a scheme whose signatures fit one text, no field of a verified envelope can be changed under its signature |
| Envelopes.SignedMembers | internal/cloudsync/client.go:34-53 | The signed text is that of one object with these eleven members and the integrity block in it |
| Envelopes.VerifiedHasText | internal/cloudsync/client.go:741-761 | A verified envelope always has a canonical text of its own, so indexing it cannot fail |
| Envelopes.SignEnvelope | internal/cloudsync/client.go:727-739 | Sign, running the writer, against its specification |
| Envelopes.VerifyEnvelope | internal/cloudsync/client.go:741-753 | Verify, running the writer, is true exactly when algorithm, key, signature form and signature are right |
| SyncServer.HonestNeverRefused | scripts/device-identity-qualification-provider.go:547-592 | A contiguous run of an outbox that starts no later than the ledger's frontier is never refused; all of it is acknowledged and the ledger stays exactly a prefix of the outbox |
| SyncServer.Provider.Exchange | scripts/device-identity-qualification-provider.go:547-592 | The request loop over the ledger maps, with its per-envelope checks, against its specification, whose answers SyncLedger gives for any ledger and any request |
| SyncLedger.RowAnswered | scripts/device-identity-qualification-provider.go:549-592 | On any ledger that any requests have built: a row is answered if and only if it is admissible and either recorded under the same id, key and sequence, which changes nothing, or the next sequence under a new id and key, which becomes the last of the log |
| SyncLedger.UsedIdentityConflicts | scripts/device-identity-qualification-provider.go:556-571 | A used key or event id with any other id, key or sequence is refused |
| SyncLedger.RequestAnswered | scripts/device-identity-qualification-provider.go:547-592 | A request succeeds if and only if each row can be answered when its turn comes, each acknowledgement is about its row, accepted exactly for a new one; otherwise the rows in front of the first that cannot be answered are recorded |
| SyncLedger.NothingTwice | scripts/device-identity-qualification-provider.go:567-579 | Whatever devices send, the accepted log holds no event twice |
| SyncTransport.HTTPTransport.Exchange | internal/cloudsync/http.go:230-273 | Succeeds exactly when every acknowledgement matches one sent row by event id, key and sequence and none repeats; the result is the largest k with everything in (prior, k] acknowledged; a rejected response moves nothing |
| SyncTransport.AcceptableMeans | internal/cloudsync/http.go:238-257 | For rows with different numbers: a response is taken exactly if it is of version 1 and within the limits and each acknowledgement is one of a row that was sent, each for another |
| SyncTransport.SortedNumbers | internal/cloudsync/http.go:258-262 | The acknowledged sequences in ascending order, each of them and no other |
| SyncInbound.SettleKeeps | internal/cloudsync/client.go:563-584 | Moving the frontier over the gap set changes no reserved sequence and leaves the next one outside the gaps |
| SyncInbound.SummaryUnique | internal/cloudsync/client.go:563-584 | Frontier and gap set are determined by the set of admitted sequences alone, not by arrival order |
| SyncInbound.FreshIsNew | internal/cloudsync/client.go:305-351 | An envelope that passes every check of Receive shares no event id, key or (stream, sequence) with anything ever admitted, retained, expired or unsaved |
| SyncInbound.CommitKeeps | internal/cloudsync/client.go:586-603 | Committing the pending envelope leaves the client in step with its disk and the indexes as they are |
| SyncInbound.ReceiveKeeps | internal/cloudsync/client.go:280-377 | For any envelope and any combination of failing writes: memory is the disk plus at most one unsaved envelope, history grows by at most that envelope, and accepted implies new and durable |
| SyncRecovery.OpenKeeps | internal/cloudsync/client.go:107-204 | A successful Open under any keys accounts for every row ever admitted, the one left unsaved included |
| SyncRecovery.RecoveryIsApplyingPending | internal/cloudsync/client.go:381-523 | What the indexes are rebuilt to from disk is the in-memory state with its pending envelope applied: same streams, seen lists and cursor |
| SyncRecovery.ReopenChangesNothing | internal/cloudsync/client.go:107-204 | On any disk at all, opening what an Open has left gives the same client and the same disk, whether or not the new save succeeds |
| SyncOutbound.OwnOutboxAccepted | internal/cloudsync/client.go:149-173 | Open accepts the rows that Enqueue wrote if and only if there are none or the configured fields have acceptable lengths |
| SyncOutbound.EnqueueKeeps | internal/cloudsync/client.go:219-253 | Whatever fails, the outbox stays or gains one row with the next sequence, no row is rewritten, and a returned row is durable |
| SyncOutbound.EnqueueIdempotent | internal/cloudsync/client.go:219-253 | A key that has a row yields that row and writes nothing |
| SyncOutbound.EnqueueWrites | internal/cloudsync/client.go:219-253 | A new key gets one signed row with the given kind, payload, id and time, the next number and the configured route, exactly if the payload is allowed and can be written, the key fits, a number is left and the row can be created; only then is the counter saved |
| SyncOutbound.PendingIsSuffix | internal/cloudsync/client.go:833-845 | What is pending is the outbox above the acknowledged sequence, in order |
| SyncRuns.StepKeeps | internal/cloudsync/client.go:107-377 | Enqueue, Receive, send, serve, apply, crash, open and expiry each keep the invariant of the whole system |
| SyncRuns.ReachableInv | internal/cloudsync/client.go:107-377 | It holds in every reachable state |
| SyncTheorems.ServerLogIsOutboxPrefix | scripts/device-identity-qualification-provider.go:547-592 | In every reachable state the server's accepted log is exactly a prefix of the client's outbox, in order and without repeats, and client ack <= server frontier <= outbox length, in memory and on disk |
| SyncTheorems.HonestExchangeNeverRefused | scripts/device-identity-qualification-provider.go:547-592 | No request a client ever sent is refused, whenever and however often it arrives |
| SyncTheorems.OutboxIsPrefix | internal/cloudsync/client.go:833-882 | Across failed saves, crashes and opens the outbox is sequences 1..n, one row per key and per id, and pending is exactly what lies above the acknowledgement |
| SyncTheorems.OutboxImmutable | internal/cloudsync/client.go:219-253 | No step changes, removes or renumbers a written row |
| SyncDraining.RoundIsSync | internal/cloudsync/client.go:693-725 | A round of send, serve, receive each envelope and apply, made of steps of the system, leaves the memory and disk that Client.Sync leaves, for any response and any failing writes |
| SyncDraining.SyncAdvances | internal/cloudsync/client.go:693-725 | A round acknowledges the next hundred rows, or all that are left, if its response arrives and every envelope in it is received, and nothing otherwise |
| SyncDraining.BacklogDrains | internal/cloudsync/client.go:693-725 | Over any rounds the acknowledgement moves by exactly a hundred rows for each round of that kind until the backlog is drained |
| SyncDraining.StrangerBlocks | internal/cloudsync/client.go:713-717 | As long as each response starts with an envelope of another tenant, nothing is ever acknowledged |
| SyncReceiving.ClassifiedExactly | internal/cloudsync/client.go:280-351 | Receive knows an envelope exactly when it is in order and in the index, and takes one for fresh exactly when it is in order and shares no identity with anything ever admitted, holds none that is reserved, and is not below the floor |
| SyncReceiving.ReceivedExactly | internal/cloudsync/client.go:280-377 | With writes that succeed, Receive returns without error exactly for such envelopes, and history and index grow by exactly that envelope |
| SyncAnswers.AnswersExactly | internal/cloudsync/client.go:280-377 | Which answer Receive gives to any envelope in any reachable state: tampered, incompatible, untrusted, duplicate, collision, replay, reordered only for a client with nothing but the scalar cursor, accepted for every other new one; an error exactly when a write that the answer needs fails |
| SyncAnswers.RowsStay | internal/cloudsync/client.go:884-910 | Whatever the client remembers and whatever fails, Receive removes and overwrites no row |
| SyncReceiving.AllReceivedExactly | internal/cloudsync/client.go:713-717 | With writes that succeed, all of a response is received exactly when each envelope is known or new given the state before and the envelopes in front of it |
| SyncReceiving.FaultFreeSync | internal/cloudsync/client.go:693-725 | So a Sync in which nothing fails acknowledges the next hundred rows, or all that are left, exactly for such responses, and nothing for any other |
| SyncTheorems.AcceptedAtMostOnce | internal/cloudsync/client.go:305-351 | Over any run Receive reports accepted or reordered at most once per event id, per key and per (stream, sequence) |
| SyncTheorems.UsedIdentityRefused | internal/cloudsync/client.go:305-351 | An envelope that shares any identity with an admitted one, even one whose row expired, is never accepted and leaves no new row |
| SyncTheorems.RetainedRowAnswers | internal/cloudsync/client.go:305-336 | An exact re-send of a retained row is a duplicate, unless the commit it triggers fails; different content under one of its identities is a collision that changes nothing |
| SyncTheorems.SummaryIsExact | internal/cloudsync/client.go:345-356 | For every stream, {1..frontier} plus the gaps are exactly the sequences admitted on it; on a trusted stream the summary is the only settled one with that meaning |
| SyncTheorems.CrashLosesNothing | internal/cloudsync/client.go:361-376 | At most one envelope is ever pending, and a crash anywhere followed by an Open under the same keys gives exactly the inbound state that saving it would have given; that Open succeeds if its save does and Open accepts the configured fields of any rows written |
| SyncTheorems.OpenRefusesExactly | internal/cloudsync/client.go:149-173 | A reachable disk is refused if and only if the route or key id is empty, rows were written under a configuration whose fields Open rejects, or a retained row names a configured key that does not verify it |
| SyncAnswers.OpensExactly | internal/cloudsync/client.go:107-204 | On any directory, whatever wrote it: Open succeeds if and only if rows are numbered without a gap, on this route, well formed and verified, no two inbox rows share an identity, the counters fit and the state can be saved |
| SyncAnswers.OpenedStreams | internal/cloudsync/client.go:381-523 | On any directory: the streams of an opened client, which of them it distrusts, and which numbers are reserved on each |
| SyncAnswers.OpenedCursor | internal/cloudsync/client.go:381-523 | Its scalar cursor is the furthest frontier of a trusted stream, or what it was when there are no streams |
| SyncWitnesses.EmptyProducerVersionLocksOut | internal/cloudsync/client.go:219-253 | A concrete run after which no Open succeeds under any keys |
| SyncWitnesses.ReboundKeyRefused | internal/cloudsync/client.go:381-523 | A concrete run whose directory is refused when a key id is given another key, and accepted with the old key or with none |
| SyncWitnesses.StrangerKeepsBacklog | internal/cloudsync/client.go:713-717 | A concrete run with one row waiting, which a response with a refused envelope leaves waiting and a response without it acknowledges |
| SyncQuarantine.QuarantineStep | internal/cloudsync/client.go:464-475 | No step of the system releases a quarantined stream, moves its frontier or accepts on it |
| SyncQuarantine.QuarantineLatches | internal/cloudsync/client.go:298-300 | From the moment it is quarantined, to the end of any run, under any keys |
| SyncQuarantine.OpenQuarantines | internal/cloudsync/client.go:392-438 | A successful Open without the key of any envelope ever admitted quarantines its stream, whether or not the row is retained |
| SyncClient.Client.Open | internal/cloudsync/client.go:107-204 | The method yields a valid client and the disk that the specification of Open describes, or the refusal |
| SyncClient.Client.Receive | internal/cloudsync/client.go:280-377 | The checks, commits and writes of Receive against its specification; SyncAnswers.AnswersExactly says which answer it gives |
| SyncClient.Client.CommitPendingInbound | internal/cloudsync/client.go:586-603 | Likewise for the commit, which fails only when something is pending and the save fails |
| SyncClient.Client.ApplyInbound | internal/cloudsync/client.go:563-584 | Likewise for the apply loop over the gap set |
| SyncClient.Client.RebuildInboundIndexes | internal/cloudsync/client.go:381-523 | The loops over rows and streams rebuild exactly the indexes, held identities and streams of the retained rows, and fail exactly on a directory that is not acceptable |
| SyncClient.Client.Enqueue | internal/cloudsync/client.go:219-253 | The method, with its scan for the key, against its specification |
| SyncClient.Client.Sync | internal/cloudsync/client.go:693-725 | The method: exchange, receive every returned envelope, then move and save the acknowledgement, against its specification |
| SyncAnswers.AcksOnlyPending | internal/cloudsync/client.go:693-725 | Whatever the transport reports, a Sync takes back no acknowledgement, takes none beyond the last pending row and changes no row; a new one is on disk, and the Sync a success, exactly if it could be saved |
| SyncClient.SyncEndIsStep | internal/cloudsync/client.go:693-725 | What Sync does at its end is the apply step that the protocol theorems are about |
| MarkdownCodec.CleanQuoteScalar | internal/mdstore/mdstore.go:203-301 | clean undoes quoteScalar on every string |
| MarkdownCodec.CleanQuoteListElem | internal/mdstore/mdstore.go:167-264 | clean undoes quoteListElem on every string, and only the empty element is written as nothing |
| MarkdownCodec.ListRoundTrip | internal/mdstore/mdstore.go:139-183 | Through both layers a list comes back without its empty elements and otherwise the same, for any mix of commas, quotes, brackets, backslashes and line breaks |
| MarkdownCodec.ListReturnsExactly | internal/mdstore/mdstore.go:139-183 | The same list comes back if and only if no element is empty |
| MarkdownValues.Lexed | internal/mdstore/mdstore.go:203-230 | Every value is a sequence of characters and quoted texts, with perhaps a quote at its end that is never closed |
| MarkdownValues.CommentFound | internal/mdstore/mdstore.go:203-230 | The comment of a value starts at the first hash behind a blank or a tab outside quotes, and nowhere else |
| MarkdownValues.ValueReads | internal/mdstore/mdstore.go:203-230 | A value reads as what the part in front of its comment stands for: the text in single quotes, the meaning of the text in double quotes, or itself |
| MarkdownValues.UnescapeMeans | internal/mdstore/mdstore.go:234-264 | Five escapes have a meaning; any other, and a last backslash, is kept as it is |
| MarkdownValues.PlainWithComment | internal/mdstore/mdstore.go:217-219 | Plain text, a blank or a tab, a hash and anything: the text is read |
| MarkdownValues.HashKept | internal/mdstore/mdstore.go:217-219 | A hash without a blank in front of it is part of the value |
| MarkdownValues.SingleQuoted | internal/mdstore/mdstore.go:203-230 | Text in single quotes is read as it is, with or without a comment behind it |
| MarkdownValues.WrittenWithComment | internal/mdstore/mdstore.go:203-301 | Whatever quoteScalar wrote is read back with any comment behind it |
| MarkdownValues.WrittenAs | internal/mdstore/mdstore.go:272-301 | Which values are written bare, that others are written escaped in double quotes, and that what is written is one line without tabs |
| MarkdownValues.ElementAs | internal/mdstore/mdstore.go:167-183 | Which list elements are written bare, and that others are written escaped in double quotes |
| MarkdownValues.ListWritten | internal/mdstore/mdstore.go:151-157 | A list is written in brackets, with a comma and a blank between elements |
| MarkdownValues.ListReads | internal/mdstore/mdstore.go:139-145 | A value in brackets is a list whose elements are its parts at the top-level commas, blank parts left out; any other value is no list |
| MarkdownValues.SplitsAtCommas | internal/mdstore/mdstore.go:304-335 | Commas inside quotes, brackets or braces do not split, those outside do |
| MarkdownValues.CutAtCommas | internal/mdstore/mdstore.go:304-335 | Any text can be cut into such parts |
| MarkdownFront.FrontFixpoint | internal/mdstore/mdstore.go:420-474 | Frontmatter survives printing and parsing, comments and blocks included, if and only if no entry lost its key and no block is reopened |
| MarkdownFront.NamedKeysKept | internal/mdstore/mdstore.go:420-474 | Lines whose keys are all named always meet that condition |
| MarkdownFront.PrintedParses | internal/mdstore/mdstore.go:554-580 | Printed frontmatter always parses, with every key and value in order |
| MarkdownFront.FrontRewritten | internal/mdstore/mdstore.go:420-474 | Printing what was parsed from frontmatter lines gives those lines, with key lines in one form, empty keys blanked with their blocks and empty one-line blocks gone |
| MarkdownFront.TidyFrontStays | internal/mdstore/mdstore.go:554-580 | That is the very same lines if and only if key lines have that form, no key is empty and no block is one empty line |
| MarkdownHead.FrontReads | internal/mdstore/mdstore.go:420-474 | From any line on, in characters: a remark is kept as it is, a line at the margin with a colon gives its name and value and takes the block behind it if the value opens one, any other line is an error |
| MarkdownHead.BlockMeans | internal/mdstore/mdstore.go:448-473 | A block is indented and white lines, and ends in front of the white lines that a line at the margin follows |
| MarkdownHead.BlockUnique | internal/mdstore/mdstore.go:448-473 | There is one such end |
| MarkdownHead.NameAndValue | internal/mdstore/mdstore.go:434-440 | Name and value are what stands on both sides of the first colon, without the white space around them |
| MarkdownHead.FrontAndBody | internal/mdstore/mdstore.go:380-418 | In a file that opens with a rule the second rule, with or without a line feed, parts frontmatter and body |
| MarkdownHead.UnclosedReads | internal/mdstore/mdstore.go:380-418 | With no second rule it is an error |
| MarkdownHead.NoFrontReads | internal/mdstore/mdstore.go:380-418 | A file whose first line is no rule is all body |
| MarkdownHead.EntryWritten | internal/mdstore/mdstore.go:554-580 | How a remark, a name with a value, and a name with a block are written |
| MarkdownHead.SectionWritten | internal/mdstore/mdstore.go:581-607 | How a section is written, and that its content always ends in a line feed |
| MarkdownHead.RuleMeans | internal/mdstore/mdstore.go:542-552 | A body opens with a rule exactly when the text before its first heading starts, behind line feeds, with three dashes |
| MarkdownHead.DocWritten | internal/mdstore/mdstore.go:554-607 | Entries are written between two rules, and the two rules are written without entries exactly for such a body |
| MarkdownSections.BodyRewritten | internal/mdstore/mdstore.go:479-525 | Printing what was parsed from body lines gives those lines, with headings in one form and blank lines before a leading heading gone |
| MarkdownSections.TidyBodyStays | internal/mdstore/mdstore.go:479-536 | That is the very same lines if and only if headings have that form and there are no such blank lines |
| MarkdownSections.ChompedParses | internal/mdstore/mdstore.go:479-525 | Taking the CR off the ends of lines changes no section but for CRLF in contents: no fence or heading appears or disappears |
| MarkdownSections.BodyFixpoint | internal/mdstore/mdstore.go:479-525 | Any body, code fences included, survives printing and parsing exactly |
| MarkdownOutline.FenceMeans | internal/mdstore/mdstore.go:511-513 | A fence is a line whose first visible characters are three backquotes |
| MarkdownOutline.HeadingMeans | internal/mdstore/mdstore.go:527-540 | A heading is one to six hashes and a space; its title is the rest without the white space around it |
| MarkdownOutline.BodyIsOutline | internal/mdstore/mdstore.go:479-525 | A body is cut at its headings outside fences and nowhere else; the text in front of the first is a section unless it is white space |
| MarkdownOutline.CodeInOneSection | internal/mdstore/mdstore.go:511-520 | A code block, whatever it says and whatever is around it, is whole in the content of one section |
| MarkdownOutline.OnlyCode | internal/mdstore/mdstore.go:511-520 | A body that is one code block is one section with all of it |
| MarkdownRewrite.FileRewritten | internal/mdstore/mdstore.go:380-607 | What is written for any file that parses, line by line, in terms of the file alone, and that it has a CRLF exactly where one of those lines ends in CR |
| MarkdownRewrite.FileStays | internal/mdstore/mdstore.go:380-607 | A rewrite leaves a file as it is, byte for byte, if and only if both halves are tidy, frontmatter is not empty, no rule leads without one, there is no CRLF and the file ends in a line feed |
| MarkdownRewrite.RoundTrip | internal/mdstore/mdstore.go:380-607 | For every file that parses: Parse, Render, Parse gives the same document if and only if no frontmatter line has an empty key with something behind it, none sits where it would reopen a block, a file without frontmatter does not open with a rule, and no printed line ends in CR |
| MarkdownRewrite.CleanFile | internal/mdstore/mdstore.go:380-418 | If no line of the normalized file ends in CR then no printed line does |
| MarkdownRewrite.CleanRaw | internal/mdstore/mdstore.go:380-418 | And that is so if and only if the file on disk has no CR CR LF and no CR at its end |
| MarkdownRewrite.PlainRoundTrip | internal/mdstore/mdstore.go:380-607 | For such files the round trip has the first three conditions only |
| MarkdownDoc.RewriteKeeps | internal/mdstore/mdstore.go:380-607 | For every file that parses: the rewrite parses, with the same keyed entries in order and the same sections but for CRLF in contents; a leading rule costs exactly one blank entry |
| MarkdownDoc.GetSet | internal/mdstore/mdstore.go:49-84 | Get after Set returns the value, every other key what it had |
| MarkdownDoc.GetDelete | internal/mdstore/mdstore.go:99-106 | Delete takes one entry and no other key's value |
| MarkdownHead.SetInPlace | internal/mdstore/mdstore.go:75-84 | Set changes the first entry of the key in its place or adds one at the end, and no other |
| MarkdownHead.DeleteInPlace | internal/mdstore/mdstore.go:99-106 | Delete takes out the first entry of the key and no other |
| MarkdownHead.GetFirst | internal/mdstore/mdstore.go:49-56 | Get reads the first entry of the key that has no block |
| MarkdownDoc.SetSurvives | internal/mdstore/mdstore.go:49-84 | Set, Render, Parse, Get returns any value under any well-formed key, from any file that parses, and disturbs no other key and no section but for CRLF in contents |
| MarkdownDoc.ListSurvives | internal/mdstore/mdstore.go:139-157 | SetList, Render, Parse, GetList returns the list, and exactly the same one if and only if no element is empty |
| MarkdownWitnesses.EmptyKeyLoses | internal/mdstore/mdstore.go:554-580 | A concrete file whose rewrite has lost a value |
| MarkdownWitnesses.CarriageReturnLost | internal/mdstore/mdstore.go:380-418 | A body with CR CR LF and one with a CR at the end, whose documents are not read back |
| MarkdownWitnesses.BlockReopened | internal/mdstore/mdstore.go:448-473 | A line `:` behind a key without a value, gone when the rewrite is read |
| MarkdownWitnesses.BlankBlockDropped | internal/mdstore/mdstore.go:448-473 | A blank line under a key, gone after one rewrite |
| MarkdownWitnesses.BlankLinesMoved | internal/mdstore/mdstore.go:479-525 | Empty frontmatter that gains a blank line, and a blank line before a leading heading that is dropped |
| MarkdownWitnesses.EmptyElementLost | internal/mdstore/mdstore.go:139-157 | A list that comes back without its empty element |
| MarkdownWitnesses.RuleGains | internal/mdstore/mdstore.go:542-580 | A body that opens with a rule, and gains a blank frontmatter entry |
| MarkdownCode.UnescapeText | internal/mdstore/mdstore.go:234-264 | The unescaping loop against its specification |
| MarkdownCode.CleanText | internal/mdstore/mdstore.go:203-230 | clean, with its quote and comment scan, against its specification; MarkdownValues says what it reads hand-written values as |
| MarkdownCode.QuoteScalarText | internal/mdstore/mdstore.go:272-301 | quoteScalar against its specification |
| MarkdownCode.SplitTopText | internal/mdstore/mdstore.go:304-335 | The split loop over quotes and nesting depth against its specification; MarkdownValues.SplitsAtCommas says where it splits |
| MarkdownCode.ParseFront | internal/mdstore/mdstore.go:420-474 | The line loop with its block lookahead against its specification; MarkdownHead.FrontReads says how it reads each line |
| MarkdownCode.ParseSectionsText | internal/mdstore/mdstore.go:479-525 | The line loop with its fence flag and buffer against its specification; MarkdownOutline.BodyIsOutline says where it cuts |
| MarkdownCode.ParseDoc | internal/mdstore/mdstore.go:380-418 | Parse against its specification |
| MarkdownCode.RenderDoc | internal/mdstore/mdstore.go:554-607 | Render against its specification |
| MarkdownCode.Front.Get | internal/mdstore/mdstore.go:49-56 | The first entry of that key, cleaned |
| MarkdownCode.Front.Set | internal/mdstore/mdstore.go:75-84 | Changes the first entry of that key in place, or appends one |
| MarkdownCode.Front.Delete | internal/mdstore/mdstore.go:99-106 | Removes the first entry of that key in place |
| MarkdownCode.Front.SetList | internal/mdstore/mdstore.go:151-157 | Writes the quoted inline list in place |
| MarkdownCode.Front.GetList | internal/mdstore/mdstore.go:139-145 | Reads it back, without empty pieces |
| EventRecords.AppendReadable | internal/eventlog/eventlog.go:74-124 | An appended event reads back, field by field, if and only if its body has no heading outside a fence and no CRLF line end; otherwise it cannot be read at all |
| EventRecords.BodyReads | internal/eventlog/eventlog.go:288-340 | The body a reader checks is the body that was written exactly under that condition |
| EventRecords.LostBodies | internal/eventlog/eventlog.go:74-124 | Two concrete bodies, one with a heading and one with a CRLF, whose events cannot be read whatever else they hold |
| EventMeaning.SameChecksum | internal/eventlog/eventlog.go:288-340 | Two readable files with the same checksum agree on everything but the applied flag |
| EventMeaning.HalfRecordRefused | internal/eventlog/eventlog.go:316-322 | Half of the integrity fields, or another version, make a file unreadable |
| EventMeaning.LegacyReads | internal/eventlog/eventlog.go:311-315 | Without them a file is read as of the old format and dismisses nothing |
| EventMeaning.DismissalNeeds | internal/eventdisp/eventdisp.go:47-86 | A valid dismissal is a checked event file that says it is an applied dismissal of that id |
| EventLog.QueryIsFilter | internal/eventlog/eventlog.go:156-239 | Every query is the filter of the unfiltered listing, cut at its limit: a limited query is a prefix of the unlimited one |
| EventLog.PendingFilter | internal/eventlog/eventlog.go:156-239 | Filtering the unfiltered list on Pending selects what Query{Pending: true} selects |
| EventMeaning.QueryMeans | internal/eventlog/eventlog.go:156-239 | A query returns events of the log that have the actor, target, kind and state asked for, all of them unless its limit is reached, and then the first |
| EventLog.FlagMeans | internal/eventlog/eventlog.go:222-229 | Every readable file is listed, and flagged exactly when a file at or before it dismisses it |
| EventLog.IndexAgrees | internal/eventdisp/eventdisp.go:92-111 | The one-pass flags equal membership in DismissedIDs if and only if every dismissed event is named by a newer dismissal and no event is named by archived dismissals only |
| EventWitnesses.OlderDismissalMissed | internal/eventlog/eventlog.go:156-239 | A log of two files whose event is listed without its flag although it is dismissed, the dismissal sorting older |
| EventWitnesses.ArchivedDismissalCounts | internal/eventlog/eventlog.go:156-239 | A log of two archived files whose event is listed with its flag although nothing live dismisses it |
| EventLog.ListReport | internal/eventlog/eventlog.go:156-239 | The loop over the sorted paths, with its unreadable files, against its specification |
| EventLog.DismissedIDs | internal/eventdisp/eventdisp.go:92-111 | The full walk against its specification |
| Journal.DismissalKeepsPlan | internal/eventlog/journal.go:65-134 | Writing a planned dismissal changes no item of the plan |
| Journal.MoveKeepsPlan | internal/eventlog/journal.go:65-134 | Archiving a planned item changes no item of the plan, and no dismissal is ever archived |
| Journal.SameItems | internal/eventlog/journal.go:136-188 | A plan depends on nothing of a log but its events other than dismissals and its holes |
| JournalCode.ListingIsLog | internal/eventlog/eventlog.go:156-239 | The unfiltered listing holds each readable event once, with the flag the plan uses |
| JournalCode.Find | internal/eventlog/eventlog.go:245-264 | A full-length reference finds the one event of that id, and fails exactly when there is none |
| JournalCode.PlanJournal | internal/eventlog/journal.go:50-134 | The passes that group, supersede and classify compute exactly the plan, one item per logical path; JournalMeaning.PlanMeans says what the plan does with each event |
| JournalMeaning.PlanMeans | internal/eventlog/journal.go:65-188 | On the events themselves: the plan has an item for each unreadable file and each event that concerns the project; it archives exactly what is complete, unreferenced, uncontested, not superseded and of a class that was asked for, dismisses exactly open work, unreferenced and uncontested, that is superseded or has no live target, and leaves the rest |
| JournalMeaning.ItemMeans | internal/eventlog/journal.go:136-173 | An item names its event, gives the first of nine reasons that holds of it, and fixes length and digest of the bytes that were seen |
| JournalMeaning.ContestedMeans | internal/eventlog/journal.go:175-188 | Contested is a claim whose target bears two open claims that differ in kind or actor |
| JournalRuns.PlanIdStable | internal/eventlog/journal.go:218-224 | After every prefix of every run of dismissals and moves, each planned from the tree it finds, plan and id are those of the start |
| JournalProgress.DismissalWritten | internal/eventlog/eventlog.go:268-286 | What Dismiss writes is read as a valid dismissal of the event it names, by the actor and with plan and class as its reason |
| JournalProgress.DismissProgress | internal/eventlog/journal.go:289-300 | One dismissal keeps the tree within what work on this plan may have done |
| JournalProgress.MoveProgress | internal/eventlog/journal.go:306-336 | So does one move to the archive |
| JournalRuns.WorkBounded | internal/eventlog/journal.go:289-336 | Each piece of work takes one item off what is left, so no run is longer than the plan |
| JournalRuns.RunsEndAlike | internal/eventlog/journal.go:238-340 | In whatever order the work is done, two runs from the same tree that leave nothing to do have the same archive, the same live files and the same dismissed events |
| JournalRuns.BytesConserved | internal/eventlog/journal.go:238-340 | After every prefix of every run each file is in exactly one of the two places with its bytes unchanged, each new file is a dismissal of an event that had none, and no two dismiss the same event |
| JournalMeaning.RunsDoOnlyThat | internal/eventlog/journal.go:238-340 | Every step of every run archives only what the start calls complete and asked for, and dismisses only what it calls moot |
| JournalApply.Workspace.ApplyJournalPlan | internal/eventlog/journal.go:238-340 | Dying before any durable write leaves a tree that such a run reaches; a stale id changes nothing; a stored snapshot that is not the plan's, or not the one that was summed up, stops the run before any work; a run with the reviewed id, after any earlier interruptions, finishes the plan unless it dies itself, and returns the stored snapshot, which a first run took of this very plan |
| Jobs.StepKeeps | internal/application/native_verification_async.go:64-174 | Every critical section of every thread keeps the invariant: entries and working threads own each other one to one, the wait group counts the threads, cancelled jobs have cancelled contexts |
| Jobs.JobsBounded | internal/application/native_verification_async.go:64-124 | In every interleaving at most two jobs are registered, the wait group is never below their number, and a working thread always finds its own entry |
| Jobs.OnlyOwnerRemoves | internal/application/native_verification_async.go:98-123 | An entry goes only by a step of the thread that made it |
| Jobs.CancelStays | internal/application/native_verification_async.go:131-154 | No step takes a cancellation back |
| Jobs.CancelledForGood | internal/application/native_verification_async.go:131-154 | Over a whole run a cancelled job is never reserved again |
| Jobs.ClosedForGood | internal/application/native_verification_async.go:158-174 | Once closed, no job is ever added |
| Jobs.CleanClose | internal/application/native_verification_async.go:158-174 | Close returning without an error means no entry and no working thread, from then on |
| JobStates.StateIsProgress | internal/application/native_verification_async.go:64-124 | In every interleaving the state of a job is what the progress of its thread and its context make it: an uncancelled job whose Prepare has succeeded reads as reserved |
| JobStates.RequestTells | internal/application/native_verification_async.go:109-114 | Request then answers reserved, or that the job was cancelled in the meantime |
| JobStates.LiveJobAnswers | internal/application/native_verification_async.go:72-80 | Asked again, Request, Status and Cancel start nothing and tell the state of the running job, which Cancel makes cancelled; another body under its key is denied |
| JobStates.NoJobAnswers | internal/application/native_verification_async.go:81-96 | Without a job they tell what is durable; a request for an unknown operation starts one job, unless closed or at two |
| JobStates.FailedRequestTells | internal/application/native_verification_async.go:64-108 | A definitive result is told at once; a request whose Prepare fails cancels its context, removes its entry and only then tells the failure, or a receipt as completed |
| JobStates.KeyNames | internal/application/native_verification_async.go:42-42 | Two requests share a key only if they are of one worker and one operation, for worker names without a colon |
| Jobs.NativeVerificationJobs.RequestSection | internal/application/native_verification_async.go:72-96 | The first locked section of Request against its step |
| Jobs.NativeVerificationJobs.ReserveSection | internal/application/native_verification_async.go:109-114 | The second locked section of Request against its step |
| Jobs.NativeVerificationJobs.RemoveSection | internal/application/native_verification_async.go:98-123 | The removal by a failed request or a finished executor against its step |
| Jobs.NativeVerificationJobs.InspectSection | internal/application/native_verification_async.go:131-154 | The locked section of Status and Cancel against its step |
| Jobs.NativeVerificationJobs.CloseSection | internal/application/native_verification_async.go:158-174 | The loop of Close over the entries against its step |
| EditDistance.EntryIsDistance | internal/cli/suggestions.go:206-225 | The table entry is the length of a shortest script of inserts, deletes and substitutions: one of that length exists and none is shorter |
| EditDistance.DistanceIsMetric | internal/cli/suggestions.go:206-225 | Symmetric, zero exactly between equals, triangle inequality |
| EditDistance.EditDistance | internal/cli/suggestions.go:206-225 | The two-row loops return that length |
| Disclosure.ClustersAreGroups | internal/commandresult/diagnostic.go:337-364 | The loop's groups are the connected groups of overlapping spans: every span in one, each chained together, no two overlapping |
| Disclosure.ClustersCover | internal/commandresult/diagnostic.go:337-364 | A character is inside a group exactly when some span covers it |
| Disclosure.RenderedFaithful | internal/commandresult/diagnostic.go:337-364 | A character is copied, once and in order, exactly when no span covers it, and each group contributes one text: its own when it is one span, the marker otherwise |
| Disclosure.RenderDisclosure | internal/commandresult/diagnostic.go:337-364 | The in-place sort and the cursor loop write that output |
| Disclosure.SecretsReplaced | internal/commandresult/diagnostic.go:270-287 | Every occurrence of every known secret lies whole inside one group that is replaced by the marker, next to or inside whatever other span |
| Disclosure.KnownSpans | internal/commandresult/diagnostic.go:270-287 | The scan adds one span for each position where a secret stands, the longest one there, and no others |
| Disclosure.RedactEnvironment | internal/commandresult/diagnostic.go:252-287 | The output is the rendering of the structural spans and of spans over secrets only, in which every secret of the environment and every whole line of one, wherever it occurs, is inside a group replaced by the marker |
| Disclosure.WholeLineIsField | internal/commandresult/diagnostic.go:262-268 | Each whole line of a multi-line secret is itself treated as a secret |
| Disclosure.ValuesMean | internal/commandresult/diagnostic.go:252-268 | An entry contributes its value and the lines of it, and nothing else, exactly if its name stands for a secret and the value has four characters |
| Disclosure.QuotedPathSpans | internal/commandresult/diagnostic.go:317-335 | The index loop against its specification |
| Disclosure.QuotedSpansOnly | internal/commandresult/diagnostic.go:317-335 | Every span found runs from the slash after a quote to the same quote or the end of the line |
| Disclosure.QuotedPathsFound | internal/commandresult/diagnostic.go:317-335 | No quote followed by a slash is passed over |
| Disclosure.FirstQuotedPath | internal/commandresult/diagnostic.go:317-335 | In characters: the path behind the first quote and slash is covered up to the same quote or the end of the line and replaced by what is disclosed of it |
| Disclosure.QuotedDisclosed | internal/commandresult/diagnostic.go:317-335 | Every span is replaced by what is disclosed of the path it covers |
| BriefTrim.TotalIsLength | internal/brief/brief.go:747-759 | The sum of the section lengths is the length of the rendered document |
| BriefTrim.KeepFirstMeans | internal/brief/brief.go:712-742 | What is kept is every section that may not be dropped and a prefix of those that may |
| BriefTrim.RemoveLast | internal/brief/brief.go:712-742 | Taking out the last droppable section that is left keeps one fewer, in order |
| BriefTrim.FittingExists | internal/brief/brief.go:712-742 | The number of droppable sections that fit best is unique, and exists exactly when the others fit on their own |
| BriefTrim.NotesMean | internal/brief/brief.go:712-742 | The notes name the dropped sections from the bottom upwards |
| BriefTrim.Brief.Trim | internal/brief/brief.go:712-742 | Fails if and only if the sections that may not be dropped exceed the budget alone; otherwise drops the shortest suffix of the others that fits and announces exactly the dropped titles |

## Left out

- Ed25519, SHA-256, base64 and ULID generation: uninterpreted, with the laws named under Assumptions; the size of a configured signing key is not checked.
- JSON decoding: canonical text is parsed back by a reader written for the purpose, which reads no surrogate pairs and no white space, and source texts write strings in the canonical escape; `state.json` and rows are values.
- Byte lengths and encodings: lengths and budgets count characters, white space is the ASCII kind; a multi-byte character that a byte loop would cut in two does not occur.
- HTTP, retries, route observation and credentials in `internal/cloudsync/http.go`.
- Payload field validation in `internal/cloudsync/payload.go`: one predicate.
- The provider's bindings, tokens, expiry, offline switch and statistics: the model starts at the loop over the envelopes of an authorized request. The decoding of a registration inside that loop is left out because it cannot fail: the payload allowlist that was passed before it admits only string and small integer members there (internal/cloudsync/payload.go:112-119).
- A response altered beyond the event id of its first acknowledgement: the fault the provider can produce is that one.
- A failed close in `createJSON`, which leaves a row behind while reporting an error.
- A second transport or client on the same directory, and a change of route or signing key between runs.
- Legacy `accepted_sequences` without a stream; stream names are triples instead of joined strings.
- Recovery of the order in which several pending envelopes would be applied: at most one ever is.
- In `internal/mdstore/mdstore.go`: section lookup and replacement by title, block and map accessors, links, checkboxes and bullets, and the durable write of bytes.
- In `internal/eventlog`: directory walk errors, files that do not end in `.md`, failures to re-read a file in the middle of a plan, the parsing of class flags, the wording of reasons and totals, and the lock file.
- The effect of other writers during a plan: every theorem of JournalRuns is about a plan and its own interrupted runs.
- Prepare, Execute and the durable lookup of a verification job: outcomes chosen by the environment at each step; the six-second limit of Close is a step that may always happen.
- Which names stand for secrets, the patterns for tokens, URLs and unquoted paths, and the wording of disclosed paths in `internal/commandresult/diagnostic.go`: parameters, any in-range spans and any function.
- Assembling the sections of a brief, and the quoting of titles, which is a parameter.
- Command-line tables, help text, agent plumbing, gates, metrics and the Python harnesses: no state worth a proof.
