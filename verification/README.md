# Verified models of the shared protocols

Most of the repository is request plumbing around a few shared libraries that carry real
protocols, text algorithms and arithmetic. This project models those libraries and proves what they
are for: nothing is lost between a database and a log, a revoked member stays out, a codec round-trips,
a SQL file put together again from its statements is cut into the same statements. Where a promise holds
only under a condition, the condition is part of the theorem, both ways, and a concrete run shows what
happens without it.

Run `dafny verify dfyconfig.toml` to check everything.

## How it is built

Code that changes state step by step is a class whose methods make the same calls in the same order.
Each outside call (a Redis command, a SQL statement, a Kafka request) is one step of a state machine,
and before every step the others (other writers, other members of the group, other gateways, the
passing of time, Redis itself) may act in any way the machine allows: a field `others` says what they do
before the call numbered `t`, and results hold for every such field. How an outside call ends is a
parameter too, and a call that reports failure may have been applied. The Redis client sends a failed
command again by itself; where that can change the outcome (a claim, an increment, a pop) the tries are
modelled, and elsewhere a try is one more step of the others. Theorems about whole runs are
lemmas over the machine; the methods are proved to be runs of it and to keep its invariant. Histories
that the code does not keep (what was handled, every heartbeat ever sent, when a generation was read) are
recorded in the machine's state for the theorems to talk about.

| part of the repository | files |
|---|---|
| SQL schema splitter | `SqlLexer`, `SqlWriting`, `SchemaBootstrap`, `SplitLaws` |
| sharded counters and their flush workers | `CounterMachine`, `CounterWorker` |
| outbox, log and resilient consumer | `Broker`, `Outbox`, `ConsumerGroup`, `Pipeline`, `OutboxPublisher`, `KafkaConsumer` |
| room entitlements and revocation | `RoomAuth`, `Revocation` |
| presence and typing | `PresenceLog`, `Presence` |
| realtime tokens and streams | `RealtimeToken`, `Streams`, `StreamSubscriber` |
| rate limiter | `RateLimit` |
| migration runner | `MigrationLog`, `MigrationRunner` |
| circuit breaker and retries | `Breaker` |
| invoice totals | `Invoice` |
| mail encoding; bytes, decimals, base64 | `Mailer`; `Text`, `Base64` |

## What the code does not promise

These came out of the proofs; each has an if-and-only-if or a concrete run behind it.

- A consumer without a dedup store loses no message exactly when no fetch succeeds after its context is
  cancelled, or it can commit nothing at all. The vendored client's `select` may still hand out a buffered
  message then, and its commit covers the one given up. With a dedup store, a crash between the claim and
  the handler loses the message, and so does a claim that the Redis client sends again after its reply was
  lost, for it finds itself. With a negative `MaxRetries` and a dead-letter topic, the first message
  whose turn it is to be handled ends in a panic.
- A room token of a removed member is refused until it expires exactly when the time between reading the
  membership generation and issuing the token, and the issuer's clock being ahead of the gateway's, together
  stay within `DenyTTL - TTL`; issuing reads the generation and the clock in two steps. An active member is
  never refused exactly when the already-gone lane draws no generation: it can draw one newer than a rejoin
  that came in between.
- A counter's new total is dirty, stored, held, or about to be marked, in every run, exactly when five
  faults do not happen (a writer's connection breaking between its commands for good, an SPOP whose reply is lost, a
  crash of a worker on a popped batch, a failed re-mark, a write that was reported as failed and arrives
  later) and no worker pops an entity that another one still holds. Every replica of a service starts a
  worker, so two of them may: the one that read first may write last. Each of these leaves a stored total
  wrong with nobody to repair it.
- An increment counts once for every try that gets through to Redis, so more than once when a reply is lost
  and the client sends the pipeline again.
- The shards add up to the last seed and what came after it exactly when there is one shard, or no increment
  picks a shard that a running seed has already deleted (it survives the seed and is counted on top of it)
  and no writer dies.
- Presence answers like a full log exactly when the key lives at least as long as the active window, and no
  key is collected and no connection breaks between a ZADD and its EXPIRE: the commands are pipelined, not a
  transaction, so either of the two can forget an active user, until that user's next heartbeat.
- A stream cursor never moves past a malformed entry: a hundred of them in a row stop the topic. Listing a
  topic twice delivers its events twice.
- The limiter admits up to three times the quota in one window when the window has a fraction of a second.
- A migration is committed at most once exactly when boots do not overlap (a boot lasts until the database
  has decided its last transaction) and no body commits by itself. Three of the group service's files do, with
  a BEGIN and COMMIT of their own: if the ledger row is not entered after that, the next boot runs them again.
  The ledger tells exactly what was committed when moreover no body rolls itself back.
- The breaker lets one probe through at a time exactly when three things do not happen: a call admitted
  before the opening being under way still, others acting between a call's load of the deadline and its swap
  of the mark, a probe starting before the call that opened the breaker is done with its bookkeeping.
- `round2` adds a paisa to negative whole amounts, so negative lines can break the invoice sum.
- The topic list holding one empty topic comes back from its token as no topics.
- A segment of the SQL file that is only a no-break space is dropped although the comment scanner would call
  it code: trimming is by Unicode, the scanner's spaces are not.

## Model

| member | source | states |
|---|---|---|
| SchemaBootstrap.SplitSqlStatements | identity-platform/shared/store/schemabootstrap/bootstrap.go:104-225 | The five scanning loops return exactly the trimmed segments that a one-pass mode automaton cuts at semicolons it reads in normal mode, without those that hold no code |
| SchemaBootstrap.CopyToken | identity-platform/shared/store/schemabootstrap/bootstrap.go:118-222 | One turn of the scan always advances, copies every rune it passes, crosses no statement end and leaves the automaton outside every quote and comment, or at the end |
| SchemaBootstrap.CopyBlockComment | identity-platform/shared/store/schemabootstrap/bootstrap.go:130-152 | Copies a stretch in which no semicolon ends a statement and after which the automaton, nested comments counted, is in normal mode again, unless the text is over |
| SchemaBootstrap.CopyQuoted | identity-platform/shared/store/schemabootstrap/bootstrap.go:155-192 | The same for literals and quoted identifiers: after it the automaton is outside, or the text is over, doubled quotes included |
| SchemaBootstrap.CopyDollarBody | identity-platform/shared/store/schemabootstrap/bootstrap.go:196-212 | The same for dollar-quoted bodies: after it the automaton, which waits for the same tag, is in normal mode, or the text is over |
| SchemaBootstrap.DollarTag | identity-platform/shared/store/schemabootstrap/bootstrap.go:228-241 | A tag is found exactly when a dollar sign, any number of underscores, ASCII letters and digits, and a dollar sign stand there, and is that text |
| SchemaBootstrap.HasExecutableSql | identity-platform/shared/store/schemabootstrap/bootstrap.go:260-296 | True exactly when some rune outside comments, by the automaton's reading, is none of tab, line feed, vertical tab, form feed, carriage return and space |
| SchemaBootstrap.Flush | identity-platform/shared/store/schemabootstrap/bootstrap.go:111-116 | Appends the trimmed segment exactly when it holds code |
| SqlLexer.SegmentsConserve | identity-platform/shared/store/schemabootstrap/bootstrap.go:104-225 | The raw segments and the semicolons between them are the input, rune for rune |
| SqlLexer.SegmentsAreClean | identity-platform/shared/store/schemabootstrap/bootstrap.go:214-216 | No segment, read by itself, holds a statement end, and each but the last stops where a semicolon ends a statement |
| SqlWriting.WrittenIsCut | identity-platform/shared/store/schemabootstrap/bootstrap.go:118-222 | Statements written as code, literals with doubled quotes, line comments, comments nested to any depth and dollar-quoted bodies, with a semicolon between them, are cut exactly between them, whatever semicolons they hold |
| SqlWriting.WrittenIsRead | identity-platform/shared/store/schemabootstrap/bootstrap.go:104-225 | And come back as the statements, exactly as written, if each begins and ends with something seen and holds a letter of code |
| SqlLexer.TrimsWhiteSpace | identity-platform/shared/store/schemabootstrap/bootstrap.go:112-112 | Trimming takes exactly the code points that Unicode calls white space off both ends |
| SplitLaws.Rejoin | identity-platform/shared/store/schemabootstrap/bootstrap.go:99-225 | For every input: joining the statements with newline and semicolon and splitting again gives the same statements |
| SplitLaws.EveryStatementIsFixpoint | identity-platform/shared/store/schemabootstrap/bootstrap.go:99-225 | Every returned statement splits to itself alone |
| SplitLaws.SegmentIsKept | identity-platform/shared/store/schemabootstrap/bootstrap.go:111-116 | A segment is kept exactly when some rune of it, outside comments and inside its trimmed part, is not SQL space |
| SplitLaws.ScannersAgreeExactly | identity-platform/shared/store/schemabootstrap/bootstrap.go:250-300 | Trimming first changes nothing in what the second scanner decides, if and only if any code in the segment reaches into its trimmed part |
| SplitLaws.ScannersAgree | identity-platform/shared/store/schemabootstrap/bootstrap.go:250-300 | In particular for every segment whose spaces are SQL spaces |
| SplitLaws.ScannersDisagree | identity-platform/shared/store/schemabootstrap/bootstrap.go:112-112 | Not for a lone no-break space, which is code to the scanner and is dropped |
| CounterMachine.EveryWriteIsCovered | Architecture/shared/counters/worker.go:84-118 | Under every interleaving of any number of writers and workers and every failure, a written entity's stored total is its shard sum, or it is dirty, or a live writer has yet to mark it, or a worker holds it, or a fault dropped it or two workers held it since one worker alone last took it up |
| CounterMachine.NothingIsLostExactly | Architecture/shared/counters/worker.go:84-118 | For any number of workers, in every run everything written is stored right, dirty, owed by a live writer or held, if and only if no writer dies in its pipeline, no pop loses its reply, no worker crashes, re-marking does not fail, no failed write arrives later, and no worker pops what another one holds |
| CounterMachine.BrokenPipelineLoses | Architecture/shared/counters/counters.go:109-114 | The run for a connection that breaks between INCRBY and SADD |
| CounterMachine.LostPopLoses | Architecture/shared/counters/counters.go:173-178 | The run for an SPOP whose reply is lost |
| CounterMachine.CrashLoses | Architecture/shared/counters/worker.go:85-93 | The run for a crash on a popped batch |
| CounterMachine.FailedRemarkLoses | Architecture/shared/counters/worker.go:108-111 | The run for a failed re-mark |
| CounterMachine.LateWriteLoses | Architecture/shared/counters/worker.go:103-107 | The run for a write that was reported as failed and arrives after the next one |
| CounterMachine.TwoWorkersLose | Architecture/shared/counters/worker.go:84-107 | The run, without any fault, in which two workers hold one entity and the one that read first writes last |
| CounterMachine.SumIsTally | Architecture/shared/counters/counters.go:104-164 | Whatever shards were picked and however increments and seeds interleave, with no seed deleting the shards add up to the last seed plus every later increment, unless an increment hit a shard a running seed had deleted or such a seed died |
| CounterMachine.SumIsTallyExactly | Architecture/shared/counters/counters.go:104-164 | They do in every run, if and only if there is one shard, or no increment picks a shard that a running seed has already deleted and no writer dies |
| CounterMachine.LateIncrementSurvives | Architecture/shared/counters/counters.go:153-164 | The run in which such an increment survives the seed and is counted on top of it |
| CounterMachine.DeadSeedForgets | Architecture/shared/counters/counters.go:153-164 | The run in which a seed dies after its first deletion and an increment is gone |
| CounterMachine.AtRest | Architecture/shared/counters/worker.go:80-118 | After a run without faults in which no worker popped what another one held, with nothing dirty, nobody writing and the workers idle, every stored total is that true count |
| CounterWorker.Counter.constructor | Architecture/shared/counters/counters.go:54-74 | 32 shards unless a positive number is given |
| CounterWorker.Counter.Inc | Architecture/shared/counters/counters.go:104-116 | Sent again after a failure as often as the client likes, with others in between, each try cut off anywhere: reports success exactly when some try gets its replies, and then the entity is dirty; alone, the sum grows by the delta for every try whose INCRBY got through, and no other entity changes; a zero delta does nothing |
| CounterWorker.Counter.IncOnce | Architecture/shared/counters/counters.go:108-114 | One try: two commands with others in between; cut between them, the entity is lost; alone, exactly these commands take effect |
| CounterWorker.IncAdds | Architecture/shared/counters/counters.go:104-116 | Whichever shard was picked, the entity's sum grows by the delta |
| CounterWorker.Counter.Seed | Architecture/shared/counters/counters.go:153-164 | All its commands with others in between, cut off anywhere; alone, leaves the total as the entity's sum, whatever the shards held, marks it, and leaves other entities as they were |
| CounterWorker.Counter.PopDirty | Architecture/shared/counters/counters.go:169-180 | Takes distinct dirty entities out of the set, up to the limit (1000 by default) for every SPOP that gets through, until the set is empty; an error returns none; what an SPOP without a reply took out is lost |
| CounterWorker.Counter.Read | Architecture/shared/counters/counters.go:121-148 | The sum over all shards when nobody writes meanwhile, or an error; a worker reads shard by shard with others in between |
| CounterWorker.Worker.Flush | Architecture/shared/counters/worker.go:84-118 | Keeps the invariant whatever other writers and other workers do between its calls; fails exactly when all tries to pop do; what failed is dirty again; alone, stores exactly the popped entities whose calls succeed and re-marks exactly the others |
| CounterWorker.Worker.Drain | Architecture/shared/counters/worker.go:65-78 | After `times` ticks without failures, other workers or writers, `times * batch` entities are gone from the set, or all, and everything that left it is stored as its sum |
| CounterWorker.CeilingDrains | Architecture/shared/counters/worker.go:84-91 | The dirty count divided by the batch size, rounded up, is how many flushes empty the set, and no fewer do |
| Outbox.StepKeepsInv | Architecture/shared/outbox/publisher.go:100-166 | Whatever sweeps do and wherever they fail or crash, every published row is in the log, and every row of a sweep that finished writing |
| OutboxPublisher.Publisher.Sweep | Architecture/shared/outbox/publisher.go:100-166 | Reads the oldest unpublished rows; reports a query error, an empty outbox or a write error exactly when there is one; otherwise all rows of the batch are in the log, and published if the mark succeeds; no row is lost, changed or unpublished |
| OutboxPublisher.Publisher.SelectRows | Architecture/shared/outbox/publisher.go:101-124 | The first unpublished rows by id, at most a batch, none passed over |
| OutboxPublisher.Publisher.WriteMessages | Architecture/shared/outbox/publisher.go:130-154 | What went out before a failure stays in the log; without an error every row of the batch is there and the sweep goes on to mark it |
| ConsumerGroup.StepKeepsInv | Architecture/shared/kafka/consumer.go:134-357 | For any number of members, cancelled, crashed, restarted or moved at any time, and any client: whatever a commit covers was handled, dead-lettered, found claimed, or given up by a cancelled member; the last only with late fetches |
| ConsumerGroup.StepBlocks | Architecture/shared/kafka/consumer.go:334-357 | A member that is not cancelled or restarted keeps the message in hand, not cancelled, through every step of anyone but its own successful commit, and then the message is settled |
| Pipeline.PublishedIsLogged | Architecture/shared/outbox/publisher.go:152-159 | In every run of the whole pipeline, a row marked published is in the log |
| Pipeline.CoveredIsSettled | Architecture/shared/kafka/consumer.go:134-262 | In every run, a message below the group's committed offset was handled, dead-lettered or found claimed, or, only where a fetch can succeed after cancellation, given up by a cancelled member |
| Pipeline.SkippedIsAccountedFor | Architecture/shared/kafka/consumer.go:168-180 | A message skipped as already claimed: the copy of its event that the claim was made for was handled or dead-lettered, or a member is at work on it, or gave it up when cancelled, or had it in hand when it restarted, or skipped it because its own claim, sent again, found itself |
| Pipeline.EndToEnd | Architecture/shared/kafka/consumer.go:134-262 | A published row is in the log, and a copy of it that is covered was handled or dead-lettered, or given up by a cancelled member where late fetches occur, without a dedup store, over crashes, partial writes, failed marks and redeliveries |
| Pipeline.NoLeapfrog | Architecture/shared/kafka/consumer.go:334-357 | In every run, a member neither cancelled nor restarted still holds its message, or got it committed and it is settled |
| Pipeline.NeverLosesExactly | Architecture/vendor/github.com/segmentio/kafka-go/reader.go:815-864 | Without a dedup store nothing covered is ever unsettled, if and only if no fetch succeeds once the context is cancelled, or nothing can ever be committed (no handler attempts and no dead-letter topic) |
| Pipeline.NeverDropsExactly | Architecture/shared/kafka/consumer.go:134-262 | Every covered message was handled or dead-lettered in every run, if and only if there is no dedup store, and either no fetch succeeds once the context is cancelled or nothing can be committed |
| Pipeline.LateFetchLeapfrogs | Architecture/vendor/github.com/segmentio/kafka-go/reader.go:828-861 | From any state where a cancelled member gives up on an unsettled message and the next is buffered, a commit covers both |
| Pipeline.ClaimThenCrash | Architecture/shared/kafka/consumer.go:168-180 | With a dedup store, a crash after the claim makes the redelivery commit a message nobody handled |
| Pipeline.EchoedClaim | Architecture/shared/kafka/consumer.go:168-180 | The run in which a claim whose reply was lost is sent again and finds itself: the message is committed and nobody handled it, with nobody cancelled or restarted |
| KafkaConsumer.Consumer.Start | Architecture/shared/kafka/consumer.go:120-156 | Until the member is cancelled, all messages fetched are committed and settled, except perhaps the last, which it still holds; afterwards some may have been given up, and without late fetches only the last; alone, with calls that succeed, every turn brings the next message and it is committed |
| KafkaConsumer.Consumer.FetchMessage | Architecture/vendor/github.com/segmentio/kafka-go/reader.go:815-864 | The next message of the partition exactly when there is one and, once cancelled, only if a buffered one comes first; the read position moves by one |
| KafkaConsumer.Consumer.ProcessWithRetry | Architecture/shared/kafka/consumer.go:158-262 | Undecodable messages are parked and never reach the handler; those found claimed are committed and never reach it; the rest is as `TryHandler` says; ends committed and settled, given up after cancellation, still holding, or about to panic |
| KafkaConsumer.Consumer.TryHandler | Architecture/shared/kafka/consumer.go:193-262 | The handler is called again after every transient failure while there are retries, never otherwise and at least once unless `MaxRetries` is negative; the message is parked exactly after it said permanent or the retries are used up, and committed as handled exactly after it succeeded; nothing but failing calls, a cancellation or a missing DLQ keeps it from that |
| KafkaConsumer.Consumer.Deduplicate | Architecture/shared/kafka/consumer.go:168-180 | Without Redis, or when all tries to claim fail, the message is handled; an event claimed before, whose claim does not run out, is committed as it is; alone, the first answer decides exactly by the claim |
| KafkaConsumer.Consumer.DeadLetterAndCommit | Architecture/shared/kafka/consumer.go:254-261 | Never commits before the dead letter is durable; panics exactly when there is a DLQ and no error to write into it |
| KafkaConsumer.Consumer.RetryDurable | Architecture/shared/kafka/consumer.go:334-357 | Leaves the message only durable or cancelled; durable with the first try that succeeds; still trying only while all tries failed and nobody cancelled; without a DLQ writer a dead letter never becomes durable |
| RoomAuth.VerifyOfSign | chat-service/shared/roomauth/roomauth.go:83-131 | A signed entitlement verifies to its own claims exactly when version, audience, both ids and expiry are in order; otherwise the first failing check is the error |
| RoomAuth.VerifiesExactly | chat-service/shared/roomauth/roomauth.go:99-131 | Exactly the texts made of an encoded payload with current claims, a dot, and the one encoding of its hash are accepted |
| RoomAuth.RefusesInOrder | chat-service/shared/roomauth/roomauth.go:99-131 | Which refusal a text meets: not exactly one dot, signature, payload, claims, and then what the claims say |
| RoomAuth.MarkerDenies | chat-service/shared/roomauth/roomauth.go:72-81 | A written generation denies exactly the generations up to it, through decimal text |
| RoomAuth.GarbledMarkerDenies | chat-service/shared/roomauth/roomauth.go:72-81 | A marker that is not a number denies every generation |
| Revocation.EverySeverIsCovered | chat-service/services/message-service/internal/store/postgres/groups.go:338-408 | In every run, a committed sever is owed by a durable intent at least as new, or such a marker was acknowledged |
| Revocation.OldGenerationIsDenied | chat-service/services/message-service/internal/service/groups.go:728-768 | After an acknowledged marker, every generation up to the sever is denied until the sever is `DenyTTL` old, whatever order markers were written in |
| Revocation.SafeExactly | chat-service/shared/roomauth/roomauth.go:23-81 | No run lets an unexpired token of a severed membership, or an older one, through after an acknowledged marker, if and only if the lag of issuing behind the generation read and the issuer's clock being ahead of the gateway's together are no more than a minute |
| Revocation.StalledTokenBreaches | chat-service/services/message-service/internal/service/entitlement.go:58-77 | The run that does, for everything longer |
| Revocation.LiveExactly | chat-service/services/message-service/internal/service/groups.go:903-928 | The generation of an active membership is never denied, if and only if the already-gone lane draws no generations |
| Revocation.OnlyARetryDenies | chat-service/services/message-service/internal/store/postgres/groups.go:329-336 | An active membership that is denied is denied by a generation drawn in that lane after it began |
| Revocation.RetryDeniesRejoined | chat-service/services/message-service/internal/service/groups.go:916-922 | A rejoin between finding the member gone and drawing the generation is denied |
| Revocation.RepairSettles | chat-service/services/message-service/internal/service/groups.go:874-901 | One acknowledged repair of the pending intent clears it and leaves every sever younger than the marker life denied |
| Revocation.StepKeepsInv | chat-service/services/message-service/internal/store/postgres/groups.go:75-336 | Joins, severs, drawn generations, intents, markers written late and out of order, lapses, two-step issuing and two-step lookups keep all of it |
| PresenceLog.AgreesExactly | chat-service/shared/presence/presence.go:156-217 | With every command a step of its own, a reader sees exactly the users whose last enter or heartbeat, not followed by a leave, is newer than the window, in every run, if and only if the window is empty, or the key lives at least as long as the window and no key is collected and no connection breaks between a ZADD and its EXPIRE |
| PresenceLog.GapForgets | chat-service/shared/presence/presence.go:158-161 | The run in which an old key is collected between the two: an active user is gone |
| PresenceLog.BreakForgets | chat-service/shared/presence/presence.go:158-164 | The run in which the EXPIRE never arrives |
| PresenceLog.ShortLifeForgets | chat-service/shared/presence/presence.go:108-125 | The run for a key that lives shorter than the window |
| PresenceLog.EvictedIsActive | chat-service/shared/presence/presence.go:190-217 | After the eviction nobody but active users is left, in every run; and all of them but those whose key was collected under their pipeline, or whose pipeline broke, since when they neither appeared again nor were found in the key by an EXPIRE |
| PresenceLog.StepKeepsInv | chat-service/shared/presence/presence.go:156-188 | Every member stands with its last score; and no other active user is missing, through evictions, collections, broken pipelines and late timestamps |
| PresenceLog.StepKeepsCounts | chat-service/shared/presence/presence.go:207-217 | After stale members were removed, nobody but users logged since can come back stale |
| Presence.RedisStore.constructor | chat-service/shared/presence/presence.go:108-137 | Windows of 45 and 8 seconds, lives of 120 and 15, unless positive ones are given, in the whole seconds Redis gets |
| Presence.RedisStore.EnterConversation | chat-service/shared/presence/presence.go:156-166 | ZADD and EXPIRE with others in between, cut off anywhere: reports success exactly with the replies, and then the appearance is logged with a time read during the call; alone, the user is in and the key's life starts anew |
| Presence.RedisStore.HeartbeatConversation | chat-service/shared/presence/presence.go:168-181 | The same with an eviction in between |
| Presence.PipelinedIsIn | chat-service/shared/presence/presence.go:156-181 | Alone, after entering the user is in; after a heartbeat too, unless the window is empty, and nobody stale is left; and nobody in the key is left with an uncertain life |
| Presence.RedisStore.LeaveConversation | chat-service/shared/presence/presence.go:183-188 | The user is out when the ZREM was executed, and the reply says whether it was known to be |
| Presence.RedisStore.ActiveUsers | chat-service/shared/presence/presence.go:190-205 | When both calls succeed, the oldest-seen users first and by name within a second, nobody skipped, as many as the caller's limit (100 if there is none) and the set allow, out of a set that holds nobody stale when the call removed them, and every active user but those of `EvictedIsActive`; exactly those when nobody interferes; nothing when a call fails |
| Presence.RedisStore.ActiveCount | chat-service/shared/presence/presence.go:207-217 | The size of such a set, or zero and an error |
| Presence.RedisStore.SetTyping | chat-service/shared/presence/presence.go:219-231 | As a heartbeat, on the typing key |
| Presence.RedisStore.TypingUsers | chat-service/shared/presence/presence.go:233-246 | As `ActiveUsers`, on the typing key, with the caller's limit or 20 |
| RealtimeToken.VerifyOfSign | Architecture/shared/realtime/realtime.go:159-226 | A signed token verifies until its expiry to exactly the signed user and topics, but for the list of one empty topic, which comes back empty |
| RealtimeToken.SignsExactly | Architecture/shared/realtime/realtime.go:159-171 | A token is issued exactly for a list that is not empty, topics without comma and bar, and a user without bar; no topics, a reserved character in a topic, and one in the user are the refusals, in this order |
| RealtimeToken.SignsPayload | Architecture/shared/realtime/realtime.go:172-178 | What is signed and encoded is expiry, user and topics, with bars between and commas between topics |
| RealtimeToken.TokenNamesGrant | Architecture/shared/realtime/realtime.go:159-178 | Equal tokens have equal expiry, user and topics |
| RealtimeToken.GrantsExactly | Architecture/shared/realtime/realtime.go:192-226 | Verification grants exactly the texts built from a matching hash and an unexpired number, a user and joined topics, said without splitting |
| RealtimeToken.RefusesInOrder | Architecture/shared/realtime/realtime.go:192-218 | Which refusal a text meets: no dot, first encoding, second encoding, signature, and then what its payload is |
| RealtimeToken.ExpiredExactly | Architecture/shared/realtime/realtime.go:217-219 | A token is refused as expired exactly when it would have been granted at some time before |
| RealtimeToken.MatchTopic | Architecture/shared/realtime/realtime.go:228-244 | True exactly when some pattern is the topic, or is a prefix of it followed by a star |
| Streams.CaughtExactly | Architecture/shared/realtime/streams.go:158-210 | What was delivered is exactly the well-formed entries between the start and the cursor, when nothing was trimmed |
| Streams.CatchOne | Architecture/shared/realtime/streams.go:187-207 | Delivering the next well-formed entry and moving the cursor to it keeps the delivered events strictly rising, unrepeated and complete but for what was trimmed |
| Streams.MessagesExactly | Architecture/shared/realtime/streams.go:169-173 | XREAD brings, of the entries not yet trimmed, the first hundred behind the id asked for |
| Streams.PartsMissNothing | Architecture/shared/realtime/streams.go:162-173 | and a part for every topic that has some |
| Streams.ProgressExactly | Architecture/shared/realtime/streams.go:169-207 | A read gets past where it stands exactly when one of the next hundred entries parses |
| Streams.StuckBehindMalformed | Architecture/shared/realtime/streams.go:191-197 | A hundred malformed entries stop a topic, whatever is added behind them |
| Streams.NoRepeatsExactly | Architecture/shared/realtime/streams.go:162-172 | One read never returns an event twice, whatever the streams hold, if and only if no topic is listed twice |
| Streams.DollarSeesNothingOld | Architecture/shared/realtime/streams.go:129-134 | Resolved at each call, `$` sees only what arrives while the call blocks |
| StreamSubscriber.Subscriber.constructor | Architecture/shared/realtime/streams.go:127-142 | All cursors at the given id, or at the live tail |
| StreamSubscriber.Subscriber.Read | Architecture/shared/realtime/streams.go:158-210 | Returns the parsed events of a reply that brings all there was at the call, in order, moves each of their topics' cursors to its last event and no other, fails only when the call does, and from a concrete id keeps every topic caught up exactly while others append and Redis trims |
| StreamSubscriber.Subscriber.Take | Architecture/shared/realtime/streams.go:185-208 | Delivers exactly the messages that parse and leaves the cursor at the last of them |
| RateLimit.QuotaHolds | Architecture/services/api-gateway/cmd/server/ratelimit_redis.go:52-70 | At most the quota in a bucket, three times it in any interval of one window, twice it for windows of whole seconds or less than one |
| RateLimit.BucketQuotaExactly | Architecture/services/api-gateway/cmd/server/ratelimit_redis.go:60-69 | With INCR and EXPIRE any time apart, the quota of a bucket holds in every run, if and only if the INCR reaches Redis within the time by which a counter outlives its bucket |
| RateLimit.SlackIsNotNegative | Architecture/services/api-gateway/cmd/server/ratelimit_redis.go:56-65 | That time is never negative, and a whole window for windows of whole seconds |
| RateLimit.WindowQuotaExactly | Architecture/services/api-gateway/cmd/server/ratelimit_redis.go:56-60 | Twice the quota bounds every interval of one window, if and only if the window is whole seconds or less than one |
| RateLimit.LiveBucketKeepsItsCounter | Architecture/services/api-gateway/cmd/server/ratelimit_redis.go:63-66 | Expiry never resets a counter its bucket still uses |
| RateLimit.Limiter.Allow | Architecture/services/api-gateway/cmd/server/ratelimit_redis.go:52-70 | Open when the quota is off or Redis fails after any of the commands; otherwise yes exactly while the counter that the INCR found, of the bucket of the time read, has not passed the quota; and the counter's life is twice the window from the EXPIRE on |
| MigrationLog.AtMostOnceExactly | Architecture/shared/store/migrationrunner/runner.go:44-112 | Over boots with any files that fail or die anywhere, no part of a body commits twice, if and only if boots do not overlap and no body commits by itself |
| MigrationLog.SelfCommitRunsTwice | Architecture/shared/store/migrationrunner/runner.go:90-108 | The run, without overlap: a body that ends the runner's transaction is committed, its ledger row is not entered, and the next boot commits it again |
| MigrationLog.LedgerAgreesExactly | Architecture/shared/store/migrationrunner/runner.go:90-108 | Each body is committed once and the ledger is exactly the committed bodies and the names marked without one, never both, in every run, if and only if boots do not overlap and no body commits by itself or undoes all it does |
| MigrationLog.VanishedBodyIsEntered | Architecture/shared/store/migrationrunner/runner.go:94-107 | The run for a body that rolls itself back: nothing but its ledger row is left |
| MigrationLog.ExecutedInOrder | Architecture/shared/store/migrationrunner/runner.go:64-110 | With one set of files never baselined, whatever their bodies do, the ledger is always the first so many files in order, these are committed in full, and nothing is of any file behind the next one; without bodies that commit by themselves, what is committed is exactly theirs, in order |
| MigrationLog.ExecutedInOrderExactly | Architecture/shared/store/migrationrunner/runner.go:64-110 | It is exactly theirs in every run, if and only if no body commits by itself |
| MigrationLog.OverlapCommitsTwice | Architecture/shared/store/migrationrunner/runner.go:57-66 | Two boots that load the ledger before either enters a file both commit its body |
| MigrationLog.LessExactly | Architecture/shared/store/migrationrunner/runner.go:132-132 | The order of files is that of their first different characters, a beginning before what it begins |
| MigrationLog.BlankExactly | Architecture/shared/store/migrationrunner/runner.go:82-88 | A file is entered without a body exactly when it is white space only |
| MigrationRunner.Database.Run | Architecture/shared/store/migrationrunner/runner.go:44-112 | Whatever the bodies do, does the first so many files and nothing else, bodies only where pending, but for what the body of the file that failed had committed by itself; without an error all of them are in the ledger, no call failed, one was made for every new file, and every new file could be read; without a failing call there is no error; keeps ledger and bodies in agreement when no body commits by itself |
| MigrationRunner.ListMigrationFiles | Architecture/shared/store/migrationrunner/runner.go:117-134 | Exactly the entries that are no directories and end in `.sql`, strictly rising by first difference; none when there is no directory |
| Breaker.CallFollowsHistory | Architecture/shared/httpclient/client.go:85-120 | In any sequence of calls, one is turned away exactly while the last `threshold` admitted ones or more failed and the timeout since the last failure has not passed; the three atomics keep telling that history |
| Breaker.BreakerTransport.RoundTrip | Architecture/shared/httpclient/client.go:85-120 | The method's loads and stores are such a call |
| Breaker.OneProbeExactly | Architecture/shared/httpclient/client.go:92-109 | With every load, swap and store a step of its own, overlapping calls never put two probes under way, if and only if nobody else is under way when a call opens the breaker, nobody acts between a call's load and its swap, and no probe starts before the opener's bookkeeping is done |
| Breaker.StragglerAddsAProbe | Architecture/shared/httpclient/client.go:105-109 | The run with two probes for a call that outlasts the opening, for every threshold |
| Breaker.StaleLoadsAddAProbe | Architecture/shared/httpclient/client.go:87-96 | The run for calls that loaded an old deadline and swap after another closed the breaker |
| Breaker.SlowBooksAddAProbe | Architecture/shared/httpclient/client.go:98-110 | The run for an opener that takes a later probe's mark for its own |
| Breaker.Retry | Architecture/shared/httpclient/client.go:40-67 | The first good answer or the last there was; after a failure or a status of 500 and more only GET and HEAD are sent again, at most `maxRetries` times, until the context is found cancelled; nothing at all for a negative number |
| Invoice.Invoice.ApplyGST | Architecture/shared/invoice/generator.go:94-116 | Every line is charged IGST between states, CGST and SGST within one, each whole paise and no further from amount times rate over a hundred than half a paisa (for an amount below minus a half, half to one and a half too high); the line total and the three column sums are rounded alike |
| Invoice.Invoice.ComputeTotals | Architecture/shared/invoice/generator.go:118-126 | Subtotal and grand total are the column sums, with shipping added and the coupon taken off, rounded alike; the taxes are left as they were |
| Invoice.ConservedExactly | Architecture/shared/invoice/generator.go:94-130 | With whole paise in, the grand total is the line totals plus shipping minus coupon, if and only if as many lines as aggregates are below zero |
| Invoice.InvoiceConservedExactly | Architecture/shared/invoice/generator.go:94-130 | The same for an invoice as the two methods leave it |
| Invoice.TotalTaxErrorBound | Architecture/shared/invoice/generator.go:97-115 | For any amounts and percentages, a hundred times the total tax is off the sum of amount times rate by at most fifty for every rounded tax of every line, and a hundred for every such tax and every column below zero |
| Invoice.RoundErrorExactly | Architecture/shared/invoice/generator.go:128-130 | Rounding is off by at most half a paisa exactly for what is not below minus a half or lies halfway |
| Invoice.RoundsToOne | Architecture/shared/invoice/generator.go:128-130 | What `ApplyGST` and `ComputeTotals` say of rounding allows one number only |
| Invoice.RoundOfWhole | Architecture/shared/invoice/generator.go:128-130 | Whole paise stay, unless negative: then rounding adds one |
| Mailer.ToBase64 | Architecture/shared/mailer/mailer.go:166-195 | The encoding of section 4 of RFC 4648 |
| Mailer.Base64Wrap | Architecture/shared/mailer/mailer.go:150-164 | Lines of at most 76 characters, all but the last full, ended by CR LF, that put together are the encoding |
| Mailer.AlphabetIsStandard | Architecture/shared/mailer/mailer.go:167-167 | The literal alphabet is table 1 of RFC 4648 |
| Mailer.WrappedDecodes | Architecture/shared/mailer/mailer.go:150-195 | Whoever skips the line breaks and decodes gets the attachment back, from four characters for every three bytes begun |
| Base64.DecodeOfEncodePadded | Architecture/shared/mailer/mailer.go:166-195 | Decoding by section 4 of RFC 4648 undoes the encoding, for every byte string |
| Base64.EncodeOfDecode | Architecture/shared/mailer/mailer.go:166-195 | No other text decodes to those bytes |
| Base64.DecodeOfEncode | Architecture/shared/realtime/realtime.go:176-204 | The unpadded URL form of section 5 of RFC 4648 round-trips, read strictly or as Go reads it |
| Base64.TestVectors | Architecture/shared/mailer/mailer.go:166-195 | The test vectors of section 10 of RFC 4648 |
| Text.ParseOfFormat | Architecture/shared/realtime/realtime.go:172-217 | Every 64-bit number survives printing and parsing |
| Text.FormatsDecimal | Architecture/shared/realtime/realtime.go:172-172 | Numbers are printed in decimal, a minus sign in front |
| Text.ParsesDecimal | Architecture/shared/realtime/realtime.go:213-216 | and read in decimal, with or without a sign |
| Text.ParsesOnlyDecimal | Architecture/shared/realtime/realtime.go:213-216 | and nothing else is read as one |
| Text.SplitOfJoin | Architecture/shared/realtime/realtime.go:172-224 | Splitting undoes joining for parts without the separator |
| Text.JoinOfSplit | Architecture/shared/realtime/realtime.go:210-224 | Joining undoes splitting for every text |

## Left out

Members that state less than one might ask:

- CounterWorker.Worker.Drain: ticks are a number of calls, not a clock; the ticker loop itself only calls `Flush`.
- KafkaConsumer.Consumer.Start: looks at the first `turns` turns and `watch` tries of each endless loop, for every choice of the two; it says nothing about whether a loop ends.
- KafkaConsumer.Consumer.ProcessWithRetry: the same `watch`.
- KafkaConsumer.Consumer.RetryDurable: a cancellation that comes together with the end of a pause is noticed at once; the source may try once more before it does.
- CounterWorker.Counter.Read: shard values are numbers; malformed ones, which the source skips, do not occur.
- SchemaBootstrap.SplitSqlStatements: the automaton reads the code's own rules; how PostgreSQL itself reads escape strings (`E'...'`), `$` inside identifiers and tags that start with a digit, which the code treats otherwise, is not modelled.
- Pipeline.NeverLosesExactly: without a dedup store; with one, `Pipeline.CoveredIsSettled` counts a message found already claimed as settled, and `Pipeline.SkippedIsAccountedFor` says what became of the message it was claimed for.
- Streams.CaughtExactly: for a stream nothing was trimmed from; with trimming, the invariant kept by `Read` excepts exactly the entries that are gone.
- RealtimeToken.VerifyOfSign: the hash is any function of the payload; that nobody else can compute it is not a statement about this code.
- RoomAuth.VerifyOfSign: JSON is any pair of functions that round-trip the claims at hand, so text that is not valid UTF-8 is outside.
- Breaker.Retry: the doubling pauses between attempts are left out, only that the context may end during one.
- MigrationRunner.Database.Run: what a body does to transactions is part of the file, not read off its text; a body that changes the ledger table itself is not modelled.
- Invoice.ConservedExactly: exact rationals in place of floating point, and no overflow of the conversion to `int`.
- Mailer.Base64Wrap: the surrounding message is not modelled.

Of the systems underneath:

- Redis, PostgreSQL and Kafka are the steps they are used for. Every command of a Redis pipeline is a step of its own. Losing Redis data is not modelled.
- One clock for all processes. Presence, the limiter and the breaker let a time be old when it is used, so clocks behind the fastest are covered; revocation lets the issuer's clock differ from the gateway's, and takes Redis' to run at the same rate.
- Counters are unbounded: INCRBY at the ends of 64 bits does not appear.
- The marker script compares generations as Lua numbers, which are exact up to 2^53; the model compares the integers. A deployment without a client or a secret, where arming is skipped or refused, is outside.
- A commit that is still under way when its process dies is applied or lost at that moment, not later.
- Log retention, rebalancing protocols beyond moved and restarted members, and the broker's own replication.
- Runes are the model's characters: bytes that are not valid UTF-8, which Go replaces, do not occur.

Of the repository:

- `Apply` and `firstLine` of the schema bootstrap, `reportLag`, `Publish`, `Close`, wiring, logging, metrics, tracing and templates: I/O or formatting.
- The role ladder, caps and ownership rules around severs and joins: they only decide whether the modelled step happens.
- `LatestCursor`, which compares ids as text, and the one-second inbox window: no clean guarantee over all runs.
- Global online markers (`SetUserOnline`, `ClearUserOnline`): a single SET and DEL.
- `FinancialYear`, `NumberFor` and invoice rendering: they would add only easy members.
- Event types, HTTP handlers, scoring, view and analytics rules, mobile apps, load tests and generated code.
