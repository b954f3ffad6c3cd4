# Entity stores, leases and hot reload: a verified model

The system is a plugin host built on actors. Plugins give it entity stores over Redis and SQL,
pooled SQL connections, a hot-reload proxy, checkpoints, dependency ordering and a client
protocol. This project models the parts of it where a mistake loses or repeats data, and proves
what they promise over every input, every interleaving or every reachable state.

| part | files |
|---|---|
| Redis store: exact decimals, codec, records, apply, commit script, save protocol | `Decimals`, `DecimalTexts`, `DecimalLoops`, `Entities`, `Increments`, `Framing`, `Codec`, `CodecExact`, `CodecLoops`, `Records`, `Engine`, `EngineLoops`, `Serial`, `RedisProtocol`, `Loads`, `Columns`, `RedisProgress` |
| SQL store: signatures, database, save machine | `SqlSignature`, `SqlDatabase`, `SqlSave`, `SqlRuns`, `SqlTheorems`, `SqlVersions`, `SqlProgress`, `SqlContext` |
| Transaction leases: dispatcher, pool, reconnecting worker | `Leases`, `LeaseRuns`, `LeaseTheorems`, `LeaseReturns`, `LeaseObjects` |
| Hot-reload proxy | `ServiceProxy` |
| Document store queues | `DocumentQueue`, `DocumentAnswers`, `DocumentActor` |
| Plugin order | `DependencyOrder`, `DependencyGraph` |
| Checkpoint files | `Crc32`, `OctetNumbers`, `Checkpoint` |
| Pomelo wire format | `Pomelo` |
| Shared | `ByteStrings`, `Results` |

`dafny verify dfyconfig.toml` checks everything.

Code that works step by step is modelled twice: as a method or class that updates the same
variables with the same loops, and as a function the method is proved equal to. The theorems are
about the functions. Concurrent parts are state machines whose events are the atomic steps of the
threads or actors involved; a run is any finite list of events.

Most operations are pinned from two sides: what they keep over every run, and what they do exactly.
The exact theorems (`Columns.ApplyExact`, `SqlVersions.EffectExact`, `LeaseTheorems.AnswersExact`,
`ServiceProxy.DecisionsExact`, `DocumentAnswers.AnswersExact`, `CodecExact.DecodeExact`,
`Pomelo.MessageExact`, `Checkpoint.RestoreExact`) describe the result in terms of the input or of
the events alone. The progress theorems (`RedisProgress`, `SqlProgress`, `LeaseReturns`) say what a
call achieves from any reachable state when it is left alone.

## What comes from outside

- `Entities.Library` holds the JSON parser, the printing of doubles and double addition. Every
  theorem about the Redis store holds for any such library.
- `SqlDatabase.Sql` holds which row a target names, what an insert or update writes into the
  columns, and how a double is printed. The theorems about runs hold for every printer. Only
  `SqlSignature.SignatureInjective` and `SqlTheorems.OkIsExact`, which conclude that two requests are
  equal, ask that the seventeen digits tell every number from every other bit pattern
  (`SqlSignature.Faithful`) and that the request holds no NaN.
- The SQL database keeps a lock on every row a transaction wrote and on the request id it reserved
  until the transaction ends; a commit publishes all of it at once.
- HMGET and EVAL are atomic on the Redis hash.
- A schema names every column and field once, as its validation at start-up makes sure
  (include/templates/entity_store_schema.hpp:300-325); the column theorems in `Columns` ask for it.
- Clocks, backoff and deadlines are answers given by the events of a run, in every combination.

## Where the code does not do the obvious thing

The model follows the code, and gives the exact condition under which the promise holds.

- `Decimal::add` compares operand lengths after padding, so zero plus a number strictly between -1
  and 0 is wrong: 0 + -0.5 is 9.5 (`Decimals.AddExact`, `Decimals.ZeroPlusMinusHalf`). A decimal
  field that is missing or zero, incremented by -0.5, therefore becomes 9.5
  (`Increments.IncrementDecimal`, `Increments.IncrementSlips`).
- A decimal is accepted by its own text but stored as its print, which can be longer than the 4096
  characters the parser takes: `1e-4096` commits, and from then on every load, update and deletion
  of the entity answers an internal error (`Loads.ServeStores`, `Loads.TinyIsLost`,
  `Loads.UnreadableForever`).
- The SQL signature prints doubles, and the patterns of NaN print alike, so a request can be answered
  with the commit of another that differs in a NaN (`SqlSignature.SignatureExact`,
  `SqlSignature.NanSignaturesMeet`, `SqlTheorems.ReplayExact`).
- `topological_order` counts a dependency once per mention and lowers the count once per provider,
  so a plugin that uses two services of one provider empties the whole order
  (`DependencyOrder.EmptyExactly`, `DependencyGraph.TwoServicesOneProvider`).
- The access check for buffered calls leaves out trust across nodes, so a reload refuses calls that
  were let through on arrival (`ServiceProxy.HeldDecision`, `ServiceProxy.ReloadRefuses`).
- `on_exit` of the SQL store looks at `begin_sent`, which a retry clears, and not at
  `commit_uncertain`: a committed save can be reported as unavailable
  (`SqlTheorems.ExitDenies`, `SqlProgress.ExitCanDeny`).
- The 24-bit package length of the Pomelo format can never exceed the limit it is compared with
  (`Pomelo.NeverMalformed`); a longer body is sent with its length cut off (`Pomelo.PackageBack`).
- Transaction handles repeat after 2^32 - 1 acquisitions of a slot (`LeaseRuns.HandleReused`). The
  lease theorems hold regardless: no job in front of a worker is ever more than two leases old
  (`LeaseTheorems.NewHandleUnknown`).

## Model

| member | source | states |
|---|---|---|
| `Decimals.AddExact` | plugins/redis/redis_entity_codec.hpp:78-120 | a sum that is not rejected is in normal form, and denotes the rational sum exactly unless one operand is zero and the other strictly between -1 and 0 |
| `Decimals.AddRejectsOnlySize` | plugins/redis/redis_entity_codec.hpp:83-119 | when the aligned operands fit and some decimal within the limits denotes their sum, that decimal is returned |
| `Decimals.ZeroPlusMinusHalf` | plugins/redis/redis_entity_codec.hpp:94-106 | the failing input: 0 plus -0.5 gives 9.5 |
| `Decimals.Canonical` | plugins/redis/redis_entity_codec.hpp:114-120 | one number has one normal form |
| `DecimalTexts.ParsePrint` | plugins/redis/redis_entity_codec.hpp:38-73 | a printed normal decimal is read back, exactly when the text has at most 4096 characters |
| `DecimalTexts.PrintCanonical` | plugins/redis/redis_entity_codec.hpp:38-73 | two accepted texts print alike exactly when they denote the same number |
| `DecimalTexts.PrintInjective` | plugins/redis/redis_entity_codec.hpp:65-73 | different normal decimals print differently |
| `DecimalTexts.FromToChars` | plugins/redis/redis_entity_codec.hpp:226-235 | an integer text is read back exactly when the number is in the range of the type |
| `DecimalLoops.Normalize` | plugins/redis/redis_entity_codec.hpp:114-120 | the trimming loops compute the normal form or refuse for size |
| `DecimalLoops.ScanMantissa` | plugins/redis/redis_entity_codec.hpp:40-51 | the mantissa loop collects the digits and fraction length the text denotes, or finds it malformed |
| `DecimalLoops.ParseText` | plugins/redis/redis_entity_codec.hpp:38-63 | the constructor reads exactly the texts that denote a decimal within the limits |
| `DecimalLoops.AddMagnitudes` | plugins/redis/redis_entity_codec.hpp:86-93 | the carry loop writes the digits of the sum of the two magnitudes |
| `DecimalLoops.SubtractMagnitudes` | plugins/redis/redis_entity_codec.hpp:94-106 | the borrow loop writes the difference, plus a power of ten when the borrow leaves the top digit |
| `DecimalLoops.AddDecimals` | plugins/redis/redis_entity_codec.hpp:78-112 | the whole addition, swap and borrow included, is the function the exactness theorem is about |
| `Increments.IncrementInteger` | plugins/redis/redis_entity_codec.hpp:209-236 | on integer fields, with a delta of any numeric kind, the result is before + delta when delta is integral and the sum fits, and a refusal otherwise |
| `Increments.IncrementDecimal` | plugins/redis/redis_entity_codec.hpp:209-224 | on decimal fields the increment is carried out exactly when both numbers can be read and the sum is not too long, and then stores before + delta exactly unless a zero meets a number strictly between -1 and 0 |
| `Increments.IncrementSlips` | plugins/redis/redis_entity_codec.hpp:200-224 | the failing input: a missing or zero decimal incremented by -0.5 becomes 9.5 |
| `Framing.TakeNumberBack` | plugins/redis/redis_entity_codec.hpp:131-159 | an eight-octet number is read back from the front of any octets, leaving the rest |
| `Framing.TakeTextBack` | plugins/redis/redis_entity_codec.hpp:134-164 | a length-prefixed text is read back from the front of any octets, leaving the rest |
| `Codec.TakeValueBack` | plugins/redis/redis_entity_codec.hpp:238-280 | an encoded value is read back from the front of any octets, leaving the rest |
| `Codec.CanonTwice` | plugins/redis/redis_entity_codec.hpp:238-260 | the canonical form of any value is its own canonical form |
| `Codec.CanonEncodable` | plugins/redis/redis_entity_codec.hpp:38-73 | the stored form of an acceptable value is acceptable again exactly when a decimal's print has at most 4096 characters |
| `Codec.DecodeEncode` | plugins/redis/redis_entity_codec.hpp:281-298 | decoding an encoded document gives it with canonical decimals and zero, exactly when version and field count can be stored |
| `Codec.EncodeInjective` | plugins/redis/redis_entity_codec.hpp:281-286 | any two documents with the same encoding have the same canonical form |
| `CodecExact.ValueExact` | plugins/redis/redis_entity_codec.hpp:261-280 | a value is read exactly from its tag and payload octets: no other octets are taken for it |
| `CodecExact.DecodeExact` | plugins/redis/redis_entity_codec.hpp:287-298 | octets are read as a document exactly when they are the mark, a version from 1 to 2^63 - 1, a count of at most 65536, and each column once with its value, and nothing more; all else is an internal error |
| `CodecLoops.Writer.PutNumber` | plugins/redis/redis_entity_codec.hpp:131-133 | the shifting loop appends the big-endian octets |
| `CodecLoops.Writer.PutText` | plugins/redis/redis_entity_codec.hpp:134-137 | appends length and content, or stops for size |
| `CodecLoops.Reader.GetNumber` | plugins/redis/redis_entity_codec.hpp:155-159 | the reading loop takes a big-endian number or finds the data short |
| `CodecLoops.Reader.GetText` | plugins/redis/redis_entity_codec.hpp:160-164 | takes a length-prefixed text, refusing a length beyond the data |
| `CodecLoops.Reader.GetFields` | plugins/redis/redis_entity_codec.hpp:293-296 | the field loop reads the fields and refuses a duplicate column |
| `CodecLoops.DecodeDocument` | plugins/redis/redis_entity_codec.hpp:287-298 | the decoder with its loop is the decoding function of the round trip |
| `CodecLoops.Writer.PutValue` | plugins/redis/redis_entity_codec.hpp:238-260 | writes the canonical form of what can be stored and refuses the rest: non-finite reals, texts that are no decimal or no JSON, and anything too long |
| `CodecLoops.EncodeDocument` | plugins/redis/redis_entity_codec.hpp:281-286 | the encoder with its loop over the ordered map, refusals included, is the encoding function of the round trip |
| `Records.SignatureInjective` | plugins/redis/redis_entity_codec.hpp:304-321 | two accepted requests have one signature exactly when their changes agree up to the spelling of numbers, operations included |
| `Records.ObjectFieldSeparates` | plugins/redis/redis_entity_codec.hpp:322-334 | one hash field means one table and one set of key values |
| `Records.ObjectFieldOrder` | plugins/redis/redis_entity_codec.hpp:325-332 | the order in which a request lists its key does not matter |
| `Records.LedgerFieldInjective` | plugins/redis/redis_entity_codec.hpp:335-337 | different request ids have different record fields |
| `Records.FieldsNeverCollide` | plugins/redis/redis_entity_codec.hpp:322-337 | an object field is never a record field |
| `Records.ReplayLedger` | plugins/redis/redis_entity_codec.hpp:341-360 | a record written for a request is accepted for it and gives the entities and versions of the first answer |
| `Records.ReplayOther` | plugins/redis/redis_entity_codec.hpp:346-349 | a record never answers for another signature: conflict |
| `Records.ReplaySame` | plugins/redis/redis_entity_codec.hpp:304-360 | the same payload, spelled differently, is answered with the versions of the first commit |
| `Engine.ApplyVersion` | plugins/redis/redis_entity_store.hpp:311-343 | a change that applies moves the version by one, or clears the document for a deletion, and respected the version guard and the existence rules |
| `Engine.CanonValid` | plugins/redis/redis_entity_store.hpp:298-310 | the stored form of a valid document is valid exactly when every decimal column of the schema prints in at most 4096 characters |
| `Engine.AdmitExactly` | plugins/redis/redis_entity_store.hpp:134-149 | a request is admitted exactly when it is valid, its id and number of changes are within the limits, and each change by itself can be placed and signed; then every change has the hash field of its own entity |
| `Columns.ApplyExact` | plugins/redis/redis_entity_store.hpp:311-343 | `apply` gives a document exactly when the change is welcome there and every column of it is as the change says: set to the data, erased, old or zero plus delta, holding the key if new, or as before; a deletion leaves nothing |
| `Columns.ApplyRefuses` | plugins/redis/redis_entity_store.hpp:311-343 | a refusal is not found, conflict, internal error or invalid request, each exactly in its case |
| `Columns.IncrementIs` | plugins/redis/redis_entity_codec.hpp:200-236 | an increment gives a value exactly when it is the old value, or the zero of the kind, plus the delta: an integer sum in range, the decimal sum (exact but for the known slip), or the sum of doubles |
| `EngineLoops.LiveDocument.Apply` | plugins/redis/redis_entity_store.hpp:311-343 | `apply` on the document in place is the apply function, error codes included, whose result `Columns.ApplyExact` describes column by column |
| `EngineLoops.LoadDocuments` | plugins/redis/redis_entity_store.hpp:165-174 | the snapshot loop decodes every stored object under the batch limit |
| `EngineLoops.ApplyChanges` | plugins/redis/redis_entity_store.hpp:175-181 | the apply loop lets changes of one entity see each other and collects the versions |
| `EngineLoops.PairItems` | plugins/redis/redis_entity_store.hpp:185-193 | the command loop pairs each object's old and new octets under the size limit |
| `EngineLoops.PrepareCommit` | plugins/redis/redis_entity_store.hpp:165-193 | snapshot to commit command, with every error of the way |
| `EngineLoops.RedisHash.Commit` | plugins/redis/redis_entity_store.hpp:225-249 | the script on the hash in place is the script of the protocol: nothing unless every object is as expected and the id is new, else all at once; `RedisProgress.ExecutedExactly` says when each reply comes |
| `Serial.FreshSnapshot` | plugins/redis/redis_entity_store.hpp:237-246 | a command the script accepts was prepared from the hash as it is at that instant |
| `Serial.CommitIsSerial` | plugins/redis/redis_entity_store.hpp:150-249 | an accepted commit equals serving the request alone on that hash |
| `Serial.ServeRecords` | plugins/redis/redis_entity_store.hpp:163-249 | a served request leaves its record, and every other record untouched |
| `RedisProtocol.NextOk` | plugins/redis/redis_entity_store.hpp:134-249 | every step of every call keeps the invariant and every record |
| `RedisProtocol.Serializable` | plugins/redis/redis_entity_store.hpp:134-249 | in every interleaving with replies lost at will, the hash is that of the committed requests served one at a time in commit order, and no request id commits twice |
| `RedisProtocol.RecordsAreForever` | plugins/redis/redis_entity_store.hpp:225-249 | a record once written never changes, and every commit has the record that answers for it |
| `RedisProtocol.HonestAnswers` | plugins/redis/redis_entity_store.hpp:134-222 | an ok answer is what the record says for ever after; any answer but ok and commit_unknown means that nothing was or will be written |
| `RedisProtocol.NeverResent` | plugins/redis/redis_entity_store.hpp:194-216 | a write whose reply is missing is never sent again by that call |
| `RedisProtocol.RetryAnswers` | plugins/redis/redis_entity_store.hpp:150-164 | a later call with a committed id gets the first versions for the same payload and conflict for another, without writing |
| `Loads.ServeStores` | plugins/redis/redis_entity_store.hpp:90-132 | after a commit a load finds each touched entity as `apply` left it, in canonical form, exactly when every decimal column prints in at most 4096 characters and the fields can be counted; else it answers an internal error |
| `Loads.ServeLeaves` | plugins/redis/redis_entity_store.hpp:90-132 | every entity a commit does not name is loaded as before, under every schema |
| `Loads.UnreadableRefuses` | plugins/redis/redis_entity_store.hpp:311-324 | every change of a document that fails validation is refused, deletion included |
| `Loads.NeverServed` | plugins/redis/redis_entity_store.hpp:163-193 | no request that names an unreadable entity commits |
| `Loads.UnreadableForever` | plugins/redis/redis_entity_store.hpp:90-249 | over every continuation of every run an unreadable entity keeps its octets and keeps answering an internal error, as long as no other schema stored in the same place can read it |
| `Loads.TinyIsLost` | plugins/redis/redis_entity_store.hpp:90-132 | the failing input: every insert of 1e-4096 is applied and stored, its load answers an internal error, and every later change is refused |
| `Columns.CommitThenLoad` | plugins/redis/redis_entity_store.hpp:90-249 | what was stored of an entity lives through the changes of a committed request one by one, each column exactly as that change says; the commit reports these versions, and the next load finds the last of them in canonical form, or answers an internal error when it cannot be read |
| `RedisProgress.PlanExactly` | plugins/redis/redis_entity_store.hpp:165-193 | from the current hash a command is made exactly when the request can be served and record and objects fit 24 MiB; otherwise the refusal is that of serving it, or invalid request for the size |
| `RedisProgress.LoadAllExactly` | plugins/redis/redis_entity_store.hpp:165-174 | the snapshot loads exactly when its objects together have at most 8 MiB and each decodes |
| `RedisProgress.ScriptAnswers` | plugins/redis/redis_entity_store.hpp:225-249 | a prepared command is answered with the record, as stale, or as done, by whether the id is recorded and the objects are as in its snapshot |
| `RedisProgress.ExecutedExactly` | plugins/redis/redis_entity_store.hpp:225-249 | in every run a command at the script is answered with the record exactly when its id is recorded, as stale exactly when the id is new and some object has changed, and done otherwise; only then anything changes |
| `RedisProgress.TryCommits` | plugins/redis/redis_entity_store.hpp:150-222 | in every run an attempt left alone commits what serving the request on the current hash gives, with these entities and this hash, or answers the refusal of serving it |
| `RedisProgress.SaveCommits` | plugins/redis/redis_entity_store.hpp:134-222 | the same for a new call under a new id, from any reachable state |
| `RedisProgress.StaleTriesAgain` | plugins/redis/redis_entity_store.hpp:194-222 | a stale reply within the budget costs one attempt only: the next one, left alone, commits |
| `RedisProgress.StaleGivesUp` | plugins/redis/redis_entity_store.hpp:194-222 | a stale reply that is not tried again is reported as a conflict, and nothing of the call is written |
| `RedisProgress.AttemptsBounded` | plugins/redis/redis_entity_store.hpp:150-222 | in every run a call makes at most the attempts it was given, at least one, and sends at most one command in each |
| `SqlSignature.SignatureExact` | include/templates/sql_entity_store_actor.hpp:886-951 | two change lists have one signature exactly when they are equal but for doubles that print alike, operations included |
| `SqlSignature.SignatureInjective` | include/templates/sql_entity_store_actor.hpp:886-951 | a change list without NaN shares its signature with no other list |
| `SqlSignature.NanSignaturesMeet` | include/templates/sql_entity_store_actor.hpp:886-951 | the failing input: patterns that print alike give different requests one signature |
| `SqlSignature.Sign` | include/templates/sql_entity_store_actor.hpp:886-951 | the token closure and its loops build that signature |
| `SqlSignature.DecodeEncodeVersions` | include/templates/sql_entity_store_actor.hpp:953-982 | encoded versions are read back under their own count, non-empty, and under no other |
| `SqlSignature.EncodeVersionList` | include/templates/sql_entity_store_actor.hpp:953-962 | the joining loop builds the comma-separated list |
| `SqlSignature.DecodeVersionList` | include/templates/sql_entity_store_actor.hpp:964-982 | the splitting loop reads the list or refuses it |
| `SqlDatabase.SeriallyLocal` | include/templates/sql_entity_store_statements.hpp:197-301 | the change statements depend on, and touch, only the rows their targets name |
| `SqlDatabase.ExecuteOk` | include/templates/sql_entity_store_statements.hpp:109-301 | every statement keeps the locks apart and every open transaction equal to its changes run serially on the committed rows |
| `SqlDatabase.PublishIsSerial` | include/templates/sql_entity_store_actor.hpp:801-830 | a commit publishes exactly the serial effect of the transaction's changes, with the versions it read |
| `SqlVersions.EffectExact` | include/templates/sql_entity_store_statements.hpp:197-301 | a change takes hold exactly where its operation and version guard allow: where no row is, an insert, or a change that may create and expects none, leaving version 1; on a row, an update or deletion at the expected version, leaving the next version or no row |
| `SqlVersions.CommitsMove` | include/templates/sql_entity_store_statements.hpp:197-301 | over every run the table went from the first rows to the present ones through the committed steps, each finding and leaving its row as its change says, with the version it reports, and touching no other row |
| `SqlVersions.NoLostUpdate` | include/templates/sql_entity_store_statements.hpp:197-301 | over every run two committed changes that expect the same version of a row and both found it have a deletion of the row between them |
| `SqlContext.SaveContext.StartSave` | include/templates/sql_entity_store_actor.hpp:491-523 | a new attempt, started within the budget, keeps the context sound |
| `SqlContext.SaveContext.ReplayRequest` | include/templates/sql_entity_store_actor.hpp:580-622 | a replay is granted only with versions a committed transaction recorded under this id and signature |
| `SqlContext.SaveContext.ApplyNextChange` | include/templates/sql_entity_store_actor.hpp:624-713 | sends the next change, or the record once all changes are applied, and keeps the context sound |
| `SqlContext.SaveContext.Commit` | include/templates/sql_entity_store_actor.hpp:801-830 | once COMMIT is sent the context waits for it; a deadline before that denies nothing that was asked for |
| `SqlContext.SaveContext.Rollback` | include/templates/sql_entity_store_actor.hpp:832-849 | an answer other than ok and commit_unknown is given only when COMMIT was never sent |
| `SqlContext.SaveContext.FailDatabase` | include/templates/sql_entity_store_recovery.hpp:129-138 | after a database error the context waits for nothing, stays sound, and denies only what was never asked to commit |
| `SqlContext.SaveContext.FailTransport` | include/templates/sql_entity_store_recovery.hpp:140-149 | the same after a lost answer |
| `SqlContext.SaveContext.RetryOrFinish` | include/templates/sql_entity_store_recovery.hpp:151-180 | another attempt only within the budget, else an answer that is commit_unknown whenever COMMIT was sent |
| `SqlContext.SaveContext.OnReply` | include/templates/sql_entity_store_actor.hpp:491-830 | every success callback keeps the context sound with respect to the committed transactions, grants only what one of them did, and denies only what was never asked to commit |
| `SqlTheorems.NextOk` | include/templates/sql_entity_store_actor.hpp:491-884 | every event of calls, database and network keeps the invariant |
| `SqlTheorems.AtMostOnce` | include/templates/sql_entity_store_actor.hpp:552-830 | over every run no request id is committed twice |
| `SqlTheorems.Serializable` | include/templates/sql_entity_store_actor.hpp:491-884 | over every run the rows are those of the committed requests run one at a time in commit order, each with all its changes |
| `SqlTheorems.OkIsCommitted` | include/templates/sql_entity_store_actor.hpp:580-884 | ok means that a committed transaction did this id's changes, all of them but for doubles that print alike, with the versions reported |
| `SqlTheorems.OkIsExact` | include/templates/sql_entity_store_actor.hpp:580-884 | for a request without NaN it did exactly these changes |
| `SqlTheorems.ReplayExact` | include/templates/sql_entity_store_actor.hpp:580-622 | a committed request answers for another under its id exactly when the two print alike |
| `SqlTheorems.FailureIsHonest` | include/templates/sql_entity_store_recovery.hpp:129-180 | finished with any code but ok and commit_unknown: COMMIT was never sent and nothing of the call is ever committed |
| `SqlTheorems.AttemptsBounded` | include/templates/sql_entity_store_recovery.hpp:151-180 | a call makes one attempt or as many as configured, no more |
| `SqlTheorems.ExitDenies` | include/templates/sql_entity_store_actor.hpp:78-102 | exit reports unavailable for a save whose COMMIT was sent exactly when an earlier attempt sent it and the current one has not sent BEGIN; `commit_uncertain` is then set |
| `SqlProgress.ExitCanDeny` | include/templates/sql_entity_store_actor.hpp:78-102 | for every request whose changes can be made, and more than one attempt, a run in which all of it commits and the caller is told that it is unavailable |
| `SqlProgress.SaveCommits` | include/templates/sql_entity_store_actor.hpp:491-830 | a call under a new id whose changes can be made, left alone (only its own steps, none refused, lost or late), commits exactly their serial effect and is told these versions |
| `SqlProgress.RetryCommits` | include/templates/sql_entity_store_recovery.hpp:129-180 | so does a call that waits for another attempt, whose earlier ones left nothing behind |
| `SqlProgress.SaveRefused` | include/templates/sql_entity_store_actor.hpp:624-849 | a call left alone with a change that cannot be made is told why by the first such change, and changes nothing |
| `SqlProgress.SecondCallAnswers` | include/templates/sql_entity_store_actor.hpp:552-622 | a call left alone under a committed id is answered with the versions of the first commit if the two print alike, else with conflict, and changes nothing |
| `SqlProgress.TroubleTriesAgain` | include/templates/sql_entity_store_recovery.hpp:129-180 | in every run connection trouble and lost answers within the budget lead to another attempt, whatever statement they hit; the doubt about a commit is kept |
| `SqlProgress.TroubleEnds` | include/templates/sql_entity_store_recovery.hpp:129-180 | in every run a refusal that is not tried again, and an answer lost with the budget spent, end the call with commit_unknown wherever a commit may stand, else with the reason |
| `SqlProgress.LostCommitIsFound` | include/templates/sql_entity_store_recovery.hpp:129-180 | when the answer of COMMIT is lost, and nothing else goes wrong, the next attempt finds the commit and is told its versions; it took effect once |
| `LeaseRuns.DecodeEncode` | include/templates/sql_connection_pool.hpp:275-282 | decoding a handle gives its slot and generation within the 16-bit indexes |
| `LeaseRuns.EncodeDecode` | include/templates/sql_connection_pool.hpp:275-282 | encoding the parts of any handle gives the handle |
| `LeaseRuns.HandleWidth` | include/templates/sql_connection_pool.hpp:275-278 | the handle fits 64 bits exactly when the generation fits 32 |
| `LeaseRuns.HandleReused` | include/templates/sql_connection_pool.hpp:67-76 | two acquisitions of a slot share a handle exactly when they are a multiple of 2^32 - 1 apart |
| `LeaseTheorems.NextOk` | include/templates/sql_service_handlers.hpp:125-230 | every step keeps slots, queues, workers and registry consistent |
| `LeaseTheorems.NewHandleUnknown` | include/templates/sql_connection_pool.hpp:67-76 | no job in front of the worker carries the handle about to be given out, however often the counter has wrapped |
| `LeaseTheorems.LeaseIsolation` | include/templates/sql_reconnecting_worker.hpp:56-90 | in every interleaving a job with a handle reaches the driver only inside its own open transaction on the same session, any other job only outside all; none reaches it twice; the active transaction is the one open on the session |
| `LeaseTheorems.NothingBetween` | include/templates/sql_service_handlers.hpp:189-230 | after a successful BEGIN a token-free job or another BEGIN comes only once that transaction or session has ended |
| `LeaseTheorems.RegistryExact` | include/templates/sql_connection_pool.hpp:123-166 | the registry's handles are exactly the current handles of the slots that are not idle |
| `LeaseTheorems.RoutesOnlyCurrent` | include/templates/sql_connection_pool.hpp:238-267 | a handle names a leased slot exactly while it is registered |
| `LeaseTheorems.ReleaseFrees` | include/templates/sql_connection_pool.hpp:146-155 | a release frees the slot exactly when the handle is its current lease, and keeps the registry consistent |
| `LeaseTheorems.LateReleaseHarmless` | include/templates/sql_connection_pool.hpp:146-155 | releasing again or late changes nothing |
| `LeaseTheorems.AnswersAreTrue` | include/templates/sql_reconnecting_worker.hpp:56-125 | a COMMIT or token-free write answered as unavailable, lost connection or lost transaction was never handed to the driver |
| `LeaseTheorems.AnswersExact` | include/templates/sql_service_handlers.hpp:125-230 | over every run an answer is ok exactly when the request itself ran ok at the driver; if it ran, the answer is the report of that run, whatever a cleanup did later |
| `LeaseTheorems.AnsweredOnce` | include/templates/sql_service_handlers.hpp:125-230 | no event changes an answer already given |
| `LeaseReturns.LeasesReturn` | include/templates/sql_service_handlers.hpp:164-230 | no lease leaks: over every run a slot with nothing queued or under way is not closing, and if it is leased its transaction is the one open on its session |
| `LeaseReturns.TransactionRuns` | include/templates/sql_service_handlers.hpp:164-230 | from any reachable state BEGIN on an idle slot, left alone, leases it under a handle that is told, registered and open at the driver; ending it is told, closes it and gives the slot back |
| `LeaseObjects.TransactionSlot.TryAcquire` | include/templates/sql_connection_pool.hpp:67-76 | the n-th lease of a slot gets the n-th generation of the counter that wraps at 32 bits and skips zero; a slot that is not idle is left alone |
| `LeaseObjects.Pool.AcquireTransaction` | include/templates/sql_connection_pool.hpp:202-236 | the handle is new, names the slot, and is registered with its key exactly when it is given out; the table stays exact, and with BEGIN queued this is the machine's step |
| `LeaseObjects.Pool.RouteTransaction` | include/templates/sql_connection_pool.hpp:238-259 | a handle is routed exactly when it is registered and its lease is not closing; closing keeps the table exact |
| `LeaseObjects.Pool.ReleaseTransaction` | include/templates/sql_connection_pool.hpp:146-155 | the handle and its key leave the table, the slot it leased becomes idle and no other changes, and a second release does nothing |
| `LeaseObjects.Worker.Reconnect` | include/templates/sql_reconnecting_worker.hpp:100-125 | the bounded reconnect loop |
| `LeaseObjects.ReconnectingSucceeds` | include/templates/sql_reconnecting_worker.hpp:100-125 | success means that an allowed attempt connected after only connection failures and no stop |
| `LeaseObjects.ReconnectingFails` | include/templates/sql_reconnecting_worker.hpp:100-125 | a failure is reported as unavailable or is the driver's own refusal |
| `LeaseObjects.Worker.Process` | include/templates/sql_reconnecting_worker.hpp:56-90 | one job from checks to outcome |
| `LeaseObjects.ProcessIsStages` | include/templates/sql_reconnecting_worker.hpp:56-90 | that is the machine's take, connect and execute stages for every slot |
| `ServiceProxy.ChecksDisagree` | src/core/service_registry.cpp:69-88 | the direct and the buffered access check agree exactly unless trust across nodes alone would let the sender through |
| `ServiceProxy.EachOnce` | src/core/service_registry.cpp:45-164 | over every run each message is forwarded once, rejected once, or still buffered |
| `ServiceProxy.ForwardsInOrder` | src/core/service_registry.cpp:45-164 | over every run forwards happen in the order of arrival |
| `ServiceProxy.ReloadSwitches` | src/core/service_registry.cpp:120-164 | after quiesce nothing is forwarded; after resume everything goes to the new target |
| `ServiceProxy.PauseChangesNothing` | src/core/service_registry.cpp:45-164 | without trust across nodes, and with the list unchanged during pauses, every message is decided as on arrival |
| `ServiceProxy.HeldDecision` | src/core/service_registry.cpp:45-164 | over every run with the list unchanged during pauses, with or without trust across nodes, all messages are decided as on arrival exactly when none was held whose sender is remote, unlisted, and only trusted across nodes; such a message is always rejected |
| `ServiceProxy.DecisionsExact` | src/core/service_registry.cpp:45-164 | every decision from the events before it: outside a pause a call is forwarded exactly when there is no list, the last list has its sender, or it comes from a trusted other node; a resume forwards, in order, the held calls whose sender the last list has and rejects the rest; nothing else settles a call |
| `ServiceProxy.VersionCounts` | src/core/service_registry.cpp:134-164 | the version is one more than the number of resumes |
| `ServiceProxy.ReloadRefuses` | src/core/service_registry.cpp:120-164 | the failing run: a reload during which a call let through on arrival is rejected |
| `ServiceProxy.ProxyActor.OnMessage` | src/core/service_registry.cpp:45-90 | the default handler buffers, rejects or forwards |
| `ServiceProxy.ProxyActor.OnResume` | src/core/service_registry.cpp:134-164 | the flush loop settles the buffered messages in order at the new target |
| `DocumentQueue.PumpOk` | include/templates/document_entity_store_actor.hpp:191-218 | `pump` terminates with the queue and leaves every queue with its head, and only its head, at the backend |
| `DocumentQueue.PumpExact` | include/templates/document_entity_store_actor.hpp:191-218 | exactly the leading saves that are late or without a backend are refused, and the first other one is sent |
| `DocumentQueue.NextOk` | include/templates/document_entity_store_actor.hpp:39-243 | every event keeps the books and the queues in order |
| `DocumentQueue.PendingExact` | include/templates/document_entity_store_actor.hpp:91-236 | the counter equals outstanding loads plus queued saves and never exceeds the limit |
| `DocumentQueue.HeadsOnly` | include/templates/document_entity_store_actor.hpp:156-236 | only heads are sent, and each partition finishes its saves in arrival order |
| `DocumentQueue.AnsweredExactlyOnce` | include/templates/document_entity_store_actor.hpp:39-236 | a request is answered or held, never both, and no event changes an answer |
| `DocumentQueue.RefusalIsTrue` | include/templates/document_entity_store_actor.hpp:39-59 | a refused request was never handed to the backend, forced exit included |
| `DocumentQueue.DrainAtZero` | include/templates/document_entity_store_actor.hpp:238-243 | drain is acknowledged only with nothing pending, and nobody is left waiting then |
| `DocumentAnswers.AnswersExact` | include/templates/document_entity_store_actor.hpp:39-243 | over every run, who each event answers and with what: admission by the room left, replies as they come, refusals of late saves as their turn comes, and on exit lost loads, unknown heads and refused others |
| `DocumentAnswers.DrainsCounted` | include/templates/document_entity_store_actor.hpp:238-243 | until a forced exit everyone who asked for the drain waits or was told once, and all were told when nothing is outstanding |
| `DocumentActor.EntityStoreActor.Pump` | include/templates/document_entity_store_actor.hpp:191-218 | the loop over the queue is that function and restores the order of the queues |
| `DocumentActor.EntityStoreActor.FinishSave` | include/templates/document_entity_store_actor.hpp:222-235 | answers, pops the front, counts down and notifies |
| `DocumentActor.EntityStoreActor.Save` | include/templates/document_entity_store_actor.hpp:156-187 | admits, queues, pumps an empty queue, and keeps books and queues in order |
| `DocumentActor.EntityStoreActor.SaveReply` | include/templates/document_entity_store_actor.hpp:207-235 | a reply finishes the head, pumps the next, and keeps books and queues in order |
| `DependencyOrder.DegreeZero` | src/core/dependency_graph.hpp:41-48 | the counter of a node is zero exactly when its list has no duplicate and all of it is emitted |
| `DependencyOrder.OrderIsTopological` | src/core/dependency_graph.hpp:40-88 | a non-empty order lists every node once, dependencies first, always the least ready node by priority and name |
| `DependencyOrder.LowestFirst` | src/core/dependency_graph.hpp:40-88 | of the plugins whose dependencies have all come, the one with the lowest priority number, then the first name, comes next |
| `DependencyOrder.EmptyExactly` | src/core/dependency_graph.hpp:40-88 | on a graph with nodes the order is empty exactly when a node lists a dependency twice or there is a cycle |
| `DependencyGraph.DependencyGraph.TopologicalOrder` | src/core/dependency_graph.hpp:40-88 | the algorithm with its counters and queue computes that order, whatever order the hash maps are walked in |
| `DependencyGraph.DependencyGraph.InDegrees` | src/core/dependency_graph.hpp:41-48 | the first loop sets every counter to the length of the node's list |
| `DependencyGraph.DependencyGraph.HasCycleFrom` | src/core/dependency_graph.hpp:33-37 | true exactly when a cycle can be reached from the plugin |
| `DependencyGraph.CycleSearch.Dfs` | src/core/dependency_graph.hpp:97-113 | the recursive search with its two sets finds a reachable cycle exactly when there is one, and terminates |
| `DependencyGraph.DependencyGraph.AddPlugin` | src/core/dependency_graph.hpp:16-26 | the plugin's providers are listed once per service, itself left out |
| `DependencyGraph.TwoServicesOneProvider` | src/core/dependency_graph.hpp:16-26 | two services of one provider give an acyclic graph with no order |
| `Crc32.CrcIsBitwise` | src/core/checkpoint_manager.cpp:9-28 | the table-driven checksum is the bit-serial CRC-32 of IEEE 802.3 (clause 3.2.9) for every octet sequence |
| `Crc32.BurstDetected` | src/core/checkpoint_manager.cpp:22-28 | texts that differ only within four consecutive octets have different checksums |
| `Crc32.BuildTable` | src/core/checkpoint_manager.cpp:9-19 | the table loops fill every entry with its eight bit steps |
| `Crc32.ComputeCrc32` | src/core/checkpoint_manager.cpp:22-28 | the octet loop computes the checksum from the table |
| `Checkpoint.RestoreSaved` | src/core/checkpoint_manager.cpp:69-150 | restore after save returns the data, whatever the name and time |
| `Checkpoint.RestoreExact` | src/core/checkpoint_manager.cpp:69-151 | a file restores to the data exactly when it begins with what saving that data writes, for some name and time |
| `Checkpoint.BurstRejected` | src/core/checkpoint_manager.cpp:113-150 | a file whose data was changed within four consecutive octets is rejected |
| `Checkpoint.UnLeLe` | src/core/checkpoint_manager.cpp:33-48 | a little-endian number is read back |
| `Checkpoint.NameIsFree` | src/core/checkpoint_manager.cpp:134-150 | the stored name is not checked: files that differ only there restore alike |
| `Checkpoint.SaveState` | src/core/checkpoint_manager.cpp:69-104 | the writing steps produce the file of the round trip |
| `Checkpoint.RestoreState` | src/core/checkpoint_manager.cpp:106-151 | the reading steps give the data of the round trip, and nothing for any damage they notice |
| `Checkpoint.Input.ReadLe` | src/core/checkpoint_manager.cpp:40-48 | the reading loop takes a little-endian number or meets the end |
| `Pomelo.NeverMalformed` | src/core/pomelo_codec.hpp:112-130 | the package parser never reports an error |
| `Pomelo.PackageBack` | src/core/pomelo_codec.hpp:55-130 | a package is read back from the front of any buffer exactly when its body is shorter than 2^24 |
| `Pomelo.PackageExact` | src/core/pomelo_codec.hpp:112-130 | a package is found exactly when the buffer begins with its encoding |
| `Pomelo.VarintBack` | src/core/pomelo_codec.hpp:76-165 | a 32-bit id is read back from its groups, five at most |
| `Pomelo.MessageBack` | src/core/pomelo_codec.hpp:69-178 | a message is read back exactly for the four kinds and routes of at most 255 octets |
| `Pomelo.VarintExact` | src/core/pomelo_codec.hpp:147-163 | an id is read exactly from one to five groups, and is what they denote in 32 bits |
| `Pomelo.MessageExact` | src/core/pomelo_codec.hpp:133-178 | the parser accepts exactly the octets that spell a message: flag without compression, known kind, id and route where the kind has them, body; and finds that message |
| `Pomelo.ChunksDoNotMatter` | src/core/pomelo_bridge.cpp:504-549 | for any bytes, however cut, the connection has handled what one buffer would give |
| `Pomelo.DrainExact` | src/core/pomelo_bridge.cpp:504-549 | any buffer is the packages handed on, one after the other, and a rest that holds no complete one |
| `Pomelo.MessagesArrive` | src/core/pomelo_bridge.cpp:504-549 | every list of encodable messages, cut anywhere, is handled as exactly those messages in order |
| `Pomelo.WriteVarint` | src/core/pomelo_codec.hpp:76-84 | the group loop writes the id |
| `Pomelo.ReadVarint` | src/core/pomelo_codec.hpp:147-163 | the group loop reads the id in 32 bits or refuses it |
| `Pomelo.Connection.OnData` | src/core/pomelo_bridge.cpp:504-549 | the receive loop hands on every complete package and keeps the rest |

## Left out

- Native drivers, sockets and timers: represented by answers that events choose freely.
- Mongo engine: its transactions and encoding belong to a library that is not part of this model.
- SQL text and schema discovery: each statement is modelled by its effect, not its text.
- SqlSave: calls start in any order, so the partition queues of the SQL store, its load path and its drain handshake are not modelled; the queues only restrict the runs considered here.
- SqlSave: the retry of one statement builder failing after admission is not modelled; the builder is a pure function that admission already called with the same input.
- RedisProtocol: the retry loop of a save call is a state machine of its atomic steps rather than a loop, because other calls run between them.
- Loads: a load is what it finds in the hash and answers for it; the projection of single columns and the retries are left out.
- Engine: `apply` refuses a version of 2^63 - 1 or more where the source tests equality; larger versions cannot be decoded or reached.
- Serial: `Serve` leaves out the 24 MiB limit of one command, which is a matter of sending it; `RedisProgress.PlanExactly` adds it.
- Leases: slots are served by the reconnecting worker, so the `fail_pending` path of workers that cannot recover is not modelled; a dispatcher message and a registry operation are one step each.
- ServiceProxy: the implementation stays alive; `down_msg`, which ends the proxy, is not modelled.
- DocumentQueue: validation and catalog lookups are one flag of the request event; which queued saves `pump` finds late or without a backend is chosen by the event, save by save.
- Checkpoint: file system errors, the rename of the temporary file and an allocation failure for a huge stored length are not modelled.
- Pomelo: transport detection, the WebSocket framing and the handling of packages after parsing are not modelled.
- Real and JSON values: opaque, through `Entities.Library` and `SqlDatabase.Sql`.
