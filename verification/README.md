# TaskBus, modelled in Dafny

TaskBus is a Go library that puts a job queue, an event bus and a distributed cron on top of
Redis Streams or RabbitMQ. This project models the logic between the library's interface and the
broker and proves properties of it: what happens to a message under any interleaving of producers,
consumers, handlers, crashes and schedulers; which topics a subscription sees; who leads; and how
often a handler runs.

`dafny verify dfyconfig.toml` checks everything.

## How the model is laid out

| module | what it covers |
|---|---|
| `Words`, `Topics` | cutting topics into words; the topic matcher and its AMQP meaning |
| `Routing` | Redis streams of topics, namespaces, job and cron topics, RabbitMQ queue names |
| `Decimal`, `Base64`, `Messages` | the wire format of stream entries and delayed items; retry copies |
| `ZSets`, `Scheduler`, `DelayTiming` | the delay set, the rounds of its scheduler, and when items are published |
| `Delivery` | the Redis delivery protocol as a step machine, its invariant, no silent loss |
| `Groups` | which consumers share entries, and that what is published reaches its handlers |
| `DeliveryLoss` | where the protocol loses messages, and exactly when it does not |
| `Sums`, `Fanout`, `FanoutWorst` | how many handler runs retries can cause at most, and that this many can happen |
| `DelayedPublishing`, `DeliveryTiming` | delayed messages through the adapter's calls, and timed runs of `Delivery` |
| `RedisAdapter` | the Redis adapter's methods on encoded data, proved to be runs of `Delivery` |
| `Claiming`, `ConsumerPool` | the two sides of the consume loop: claiming abandoned entries, bounding handlers |
| `Backoff` | the retry policy, its copies inside the adapters, and the configuration defaults |
| `Rabbit` | header tables and the fate of one delivery in the RabbitMQ adapter |
| `Lease` | the Redis leader lease of the distributed cron |
| `Idempotency` | the idempotency middleware over whole histories |
| `Jobs`, `Events` | enqueueing to handling, worker groups, events there and back |
| `Options`, `Maps` | small helpers |

Where the Go code changes things step by step, the model has a method with a loop or a class with
the same fields, proved equal to a function; the properties are then proved of that function. The
protocols are transition systems: `Enabled` and `Apply` say what one step does, `Legal` and `Exec`
extend this to runs, and each Redis command is one atomic step. A command can fail, and it can take
effect although its caller sees an error.

Three modelling choices matter for reading the results.

* A stream entry is kept in `Delivery` as the message a consumer decodes from it. That this is
  right is `Messages.WireRoundTrip`; the class `RedisAdapter.Redis` stores the encoded fields and
  is proved to behave like the broker of `Delivery`.
* Reading and claiming are modelled one entry at a time and may happen at any time, also before the
  idle time of 30 seconds has passed; a scheduler may have read any members of the delay set. The
  real batches and times are special cases. Every group exists from the start, which makes no
  difference because groups read their stream from the beginning.
* Strings are sequences of characters and stand for valid UTF-8. A missing header map and an empty
  one are the same.

Where the repository's documentation promises more than the code does, the model follows the code.
README.md of the repository (lines 7 and 19) announces dead-letter handling; there is none, and a
message whose retries are exhausted is acknowledged (reason `Exhausted` in `Delivery`). The comment
above the job middleware (middleware_idempotency.go:71) says that the key contains the job name; it
does not (`Idempotency.JobBlocksJobIff`).

## Model

| member | source | states |
|---|---|---|
| Words.JoinSplit | util.go:43-44 | gluing the words of a topic gives the topic back, for every string |
| Words.SplitJoin | util.go:43-44 | every nonempty list of dot-free words is what its joined topic splits into |
| Words.SplitInjective | util.go:43-44 | different topics have different word lists |
| Words.SplitConcat | util.go:43-44 | a dot anywhere in a string is a boundary between the words of its two sides |
| Topics.MatchTopicTokens | util.go:48-74 | the backtracking loop over split points finds a match exactly if one exists |
| Topics.MatchIffDivision | util.go:48-74 | the matcher accepts exactly the topics that can be cut into consecutive segments, one per token: one word for `*`, any number for `#`, the same word for a literal |
| Topics.MatchConcat | util.go:48-74 | p+q matches t if and only if p matches some front of t and q the rest |
| Topics.MatchReversed | util.go:48-74 | matching is symmetric under reading pattern and topic backwards |
| Topics.MatchCongruence | util.go:48-74 | patterns that match the same topics are interchangeable inside any pattern |
| Topics.HashLaws | util.go:48-74 | inside any pattern `#.#` is `#` and `#.*` is `*.#` |
| Topics.MatchesItself | util.go:33-46 | any word list matches itself, wildcard words included, so the equality short cut is sound |
| Topics.PlainMatchesOnlyItself | util.go:40-42 | a pattern without wildcard tokens matches nothing but itself |
| Topics.FastPathRefinesTokens | util.go:33-46 | for all strings the short cuts give the answer of splitting and matching words, except that the empty topic is matched by the empty pattern only |
| Topics.MatchesEmptyWord | util.go:48-74 | the token matcher accepts the single empty word if and only if one token is `*`, `#` or empty and all others are `#` |
| Topics.EmptyTopicGap | util.go:37-39 | the patterns for which the empty topic is answered differently from AMQP: the nonempty ones of that shape |
| Topics.TrimTopicPrefix | util.go:7-12 | what remains completes the prefix to the topic; without the prefix nothing changes |
| Routing.StreamOfWords | redis_adapter.go:76-101 | the stream of a topic is decided by its second and third words |
| Routing.ShardingLosesNoMatchIff | redis_adapter.go:76-101 | every topic a pattern matches lives on the stream of the pattern if and only if the pattern has no wildcard token or its literal words already name a component stream |
| Routing.RoutedShapeKeepsStream | redis_adapter.go:146-147 | the safe shapes keep their stream for every matched topic, also where `#` stands for no word |
| Routing.StrayTopicMatches | util.go:33-74 | filling each wildcard with a word gives a topic that the pattern matches |
| Routing.StrayTopicStrays | redis_adapter.go:76-101 | for every other pattern that topic is on a different stream |
| Routing.NamespaceLanguageIff | client.go:170-173 | the regular expression read left to right accepts exactly the namespaces used here |
| Routing.ClientNamespace | client.go:38-46 | a client always ends up in a valid namespace, its own if that is valid |
| Routing.PrefixedMatch | util.go:16-30 | a prefixed pattern sees a built topic if and only if namespace and component agree and the bare pattern matches the bare name |
| Routing.NamespaceIsolation | util.go:16-30 | a worker wildcard matches a built topic if and only if namespace and component agree, whatever the name |
| Routing.BuildTopicInjective | util.go:16-24 | a built topic determines namespace, component and name |
| Routing.StreamsSharedIff | redis_adapter.go:76-92 | two built topics share a Redis stream if and only if the namespaces agree and either the components do or the namespace is itself `job`, `event` or `cron` |
| Routing.GlobalBusSeesNamespaceEvent | eventbus_impl.go:12-23 | the global bus catch-all sees a namespaced topic if and only if the namespace is `event` |
| Routing.JobRouting | jobs_impl.go:70-84 | for every name the worker wildcard matches the job's topic, on the stream the worker reads, and the extracted name is the enqueued one |
| Routing.ForeignJobName | jobs_impl.go:76-84 | outside the worker's prefix a leading `job.` is taken off, and any other topic is the name itself |
| Routing.WorkerTopics | jobs_impl.go:75-84 | everything a worker accepts is the built topic of the name it extracts, except the bare prefix |
| Routing.CronRouting | cron_dist.go:357-387 | the same for cron firings and executors |
| Routing.SanitizeQueueName | rabbitmq_adapter.go:351-371 | the nested loops keep exactly the allowed characters, with `q` for nothing |
| Routing.QueueSafeMeaning | rabbitmq_adapter.go:351-371 | a sanitised name is nonempty and free of forbidden characters, and `q` if nothing else was in it |
| Routing.QueueNamesSharedIff | rabbitmq_adapter.go:204 | two worker queues have one name if and only if namespace, component and sanitised group agree |
| Routing.GroupsKeptApart | rabbitmq_adapter.go:351-371 | groups free of forbidden characters keep their queues apart; with them they may not |
| Routing.SubscriptionsShareQueueIff | rabbitmq_adapter.go:204 | two prefixed subscriptions have one queue if and only if namespace and component agree and so does what sanitising leaves of pattern and group |
| Routing.GroupSharesQueueIff | rabbitmq_adapter.go:204 | within one group exactly the patterns that differ in forbidden characters only share a queue |
| Routing.StarAndHashShareQueue | rabbitmq_adapter.go:204-268 | `words.*` and `words.#` of one group share a queue although they want different topics |
| Decimal.AtoiItoa | redis_adapter.go:190-198 | parsing undoes printing for exactly the 64-bit integers |
| Decimal.AtoiIff | redis_adapter.go:190-194 | a text parses to v if and only if it is a sign if any, zeros if any and the decimal of v, within 64 bits |
| Base64.RoundTrip | redis_adapter.go:294-315 | decoding an encoded body gives the body, for every byte sequence (section 4 of RFC 4648) |
| Base64.KnownEncodings | redis_adapter.go:294 | the encodings of "f", "fo", "foo" and "foob" of section 10 of RFC 4648 |
| Messages.PublishFields | redis_adapter.go:290-300 | in every iteration order the loop builds the fields of the message |
| Messages.DecodeXMessage | redis_adapter.go:303-330 | in every iteration order the loop decodes to the same message |
| Messages.FieldNames | redis_adapter.go:292-299 | which fields an entry has under which literal names, and with which values |
| Messages.ForeignEntry | redis_adapter.go:303-330 | what is read from an entry with missing fields: an absent or empty topic gives the stream, absent key and body are empty |
| Messages.WireRoundTrip | redis_adapter.go:290-330 | publish and decode keeps topic, key, body and headers; the message is unchanged if and only if no header name is empty |
| Messages.DelayRoundTrip | redis_adapter.go:118-139 | a delayed item restores its message |
| Messages.CopyHeaders | jobs_impl.go:171-180 | the copy equals the original |
| Messages.ReadAttempt | redis_adapter.go:189-194 | the method reads the retry count of the headers; what that is for a message without one is `FirstCopy` |
| Messages.FirstCopy | redis_adapter.go:189-200 | a message without a readable count counts zero, and its first failure puts off the same message with the count "1" |
| Messages.CountAfterFailures | redis_adapter.go:118-330 | after n failures such a message carries the decimal of n, and nothing else has changed |
| Messages.RetryCopyCount | redis_adapter.go:195-200 | the copy's count reads back as the next attempt, also where 64 bits wrap |
| Messages.RetriedCount | redis_adapter.go:189-200 | after n retries the count reads as the original plus n |
| Messages.RetryRoundTrip | redis_adapter.go:118-330 | after any number n of failed deliveries, through delayed item, scheduler and stream, only the retry count has changed, to the start count plus n |
| ZSets.ValidMeaning | redis_adapter.go:114 | a valid delay set is in score order and holds no member twice |
| ZSets.StaysValid | redis_adapter.go:124-139 | ZADD and ZREM keep it so |
| ZSets.ZAddMembers | redis_adapter.go:139 | an identical message collapses with the one already there |
| ZSets.ZRangeIsFront | redis_adapter.go:114 | a range read is the front of the set: due entries in score order up to the limit |
| Delivery.StepInv | redis_adapter.go:103-275 | every step of every participant keeps the protocol invariant |
| Delivery.RunInv | redis_adapter.go:103-275 | so does every run |
| Delivery.SortedRun | redis_adapter.go:114-139 | in every run the delay set stays in score order without duplicates |
| Delivery.NoSilentLossEver | redis_adapter.go:178-211 | in every reachable state each entry is, for each group, exactly one of unread, pending, or acknowledged for a reason that holds: mismatch, handler success, retries exhausted, or a copy with the count raised that is waiting, sent, or recorded as lost |
| Delivery.PendingIsRecoverable | redis_adapter.go:218-241 | any pending entry can be claimed by any consumer of its group, and a match starts its handler |
| Groups.EachGroupReadsAll | redis_adapter.go:142-149 | in every run the consumers of one stream and one group name are given its entries in order from the first, each once, independently of other groups, until they have had all |
| Groups.OtherGroupReadsToo | redis_adapter.go:143-149 | consumers of one stream whose group names differ, the empty one read as `default`, both fetch a published message and handle it if their patterns match |
| Groups.SameGroupShares | redis_adapter.go:143-149 | with the same group name the second consumer has nothing left to read |
| Groups.PublishedIsReceived | redis_adapter.go:243-262 | in every reachable state an up-to-date consumer fetches the next message of its stream, and its handler starts exactly on a match |
| Groups.WorkerHandlesJob | jobs_impl.go:42-84 | an up-to-date worker of any group handles the next job of its namespace, whatever its name |
| Groups.ExecutorHandlesFiring | cron_dist.go:357-387 | an up-to-date executor handles the next firing |
| Groups.SubscriberHandlesEvent | eventbus_impl.go:16-98 | an up-to-date subscriber, in either mode, handles the next event if and only if its pattern matches the event's topic |
| Delivery.RoutedRun | redis_adapter.go:290-300 | entries always sit on the stream of their own topic |
| DeliveryLoss.PutOffNeverLost | redis_adapter.go:118-125 | if no XADD of an unsent item fails and nothing is re-added in transit, each message put off is in the delay set or on its stream |
| DeliveryLoss.EveryPutOffIsSent | redis_adapter.go:118-139 | under the same conditions every single ZADD, equal messages included, is followed by a successful XADD or still waits |
| DeliveryLoss.OrdinaryIff | redis_adapter.go:122-139 | one step puts some message one ZREM away from being lost if and only if it is a failed XADD of an unsent item or a put-off of an identical message between XADD and ZREM |
| DeliveryLoss.NeverAtRiskIff | redis_adapter.go:118-139 | a run consists of other steps only if and only if in no state along it the next command can lose a message |
| DeliveryLoss.AnsweredWhateverNextIff | redis_adapter.go:118-139 | every put-off up to any point of a run is sent or waits, whatever the next command is, if and only if the run avoids these two kinds of steps |
| DeliveryLoss.FailedTransferLoses | redis_adapter.go:122-124 | a failed XADD loses the message, for every message |
| DeliveryLoss.ReaddedInTransitLoses | redis_adapter.go:122-139 | an identical message added between XADD and ZREM vanishes: two put off, one sent |
| DeliveryLoss.AgreementDropsNothing | redis_adapter.go:181-184 | if consumers of a group agree on the topics of their stream, no wanted entry is acknowledged as a mismatch |
| DeliveryLoss.DisagreementDrops | redis_adapter.go:181-184 | any disagreement gives a run that drops a wanted message |
| DeliveryLoss.NothingDroppedIff | redis_adapter.go:181-184 | no run drops a wanted message if and only if consumers sharing a group agree |
| Fanout.StepBalance | redis_adapter.go:178-211 | each step pays one unit of potential for each handler it starts, beyond what enters from outside |
| Fanout.RunBalance | redis_adapter.go:103-275 | handler runs plus the runs still possible never exceed the initial potential plus all charges |
| Fanout.HandlerRunsBounded | redis_adapter.go:188-209 | from an empty broker the handler runs of any run are at most its charges |
| Fanout.ChargesInNumbers | redis_adapter.go:188-262 | the charge of a publication, a repeated transfer or a redelivery as a sum of powers of the number of groups |
| Fanout.RunsClosedForm | redis_adapter.go:195-200 | the weight of a message at count k with g groups is g + g^2 + ... + g^(MaxRetries-k+1) |
| Fanout.OneMessageBound | redis_adapter.go:188-209 | one message at count zero causes at most g + ... + g^(MaxRetries+1) handler runs even if all fail |
| Fanout.FreshMessageBound | redis_adapter.go:188-209 | the same bound for every message without a retry header |
| FanoutWorst.OneFailure | redis_adapter.go:178-209 | while anything is unread, one failing delivery and the transfer of its copy start one handler and use up exactly one unit of potential |
| FanoutWorst.UseUp | redis_adapter.go:103-275 | from any quiet state some run starts exactly as many handlers as the potential allows |
| FanoutWorst.BoundIsReached | redis_adapter.go:188-209 | if every group wants the topic, the bound g + ... + g^(MaxRetries+1) is reached by some run, so it is the maximum |
| FanoutWorst.EventBound | eventbus_impl.go:36-46 | for an event whose metadata names no count the bound holds and is reached |
| Backoff.Guarded | redis_adapter.go:57-63 | the adapters' guard replaces an unset base by one second and an unset factor by two, and leaves usable settings alone |
| Backoff.RetrySettings.ApplyDefaults | client.go:175-199 | defaults fill what is unset, keep what is set, and leave the MQ settings usable with at least one retry |
| Backoff.DelayIsThePower | mq.go:80 | the delay is base times the factor's power, less the cut-off fraction, for any sequence of powers |
| Backoff.WholeFactorDelay | mq.go:80 | for a whole factor it is exactly base times the power |
| Backoff.NegativeAttempt | mq.go:80 | at negative attempts the base is divided by the power |
| Backoff.DefaultDelays | mq.go:66-82 | the defaults give one, two and four seconds and then stop, in the policy and in the adapters |
| Backoff.AdapterFollowsPolicy | redis_adapter.go:195-199 | the stop test and the delay inside both adapters equal the policy if and only if the count is not the largest int |
| Backoff.DelaysGrow | mq.go:80 | with a factor of at least one, later tries never wait less |
| Backoff.TotalDelayBound | mq.go:80 | total waiting of n failures is within the geometric sum |
| Backoff.TotalDelayCovers | mq.go:80 | the total is below the geometric sum by at most a nanosecond for each delay |
| Backoff.DelaysFit | mq.go:80 | if the last delay fits 64-bit nanoseconds, all do |
| DelayTiming.ScoreIsLastDue | redis_adapter.go:135-140 | the score of an item is the due time of the last request that put it off |
| DelayTiming.PicksAreDue | redis_adapter.go:113-114 | no range read picks an item a full millisecond or more before that due time |
| DelayTiming.PrematureIff | redis_adapter.go:113-140 | an XADD comes a full millisecond or more before the item's last requested time if and only if the item was put off again after the scheduler had picked it, to a time still that far ahead |
| DelayTiming.NeverEarly | redis_adapter.go:113-140 | an item that nobody puts off between its range read and its XADD is never sent a full millisecond or more early |
| DelayTiming.PutOffAgainIsSentAtOnce | redis_adapter.go:114-124 | every message, put off again by any delay while a scheduler holds it, is sent at once, and its new item is removed |
| DeliveryTiming.CatchRun | redis_adapter.go:103-140 | every timed run of the delivery protocol is, for the delay set and its schedulers, a history of `DelayTiming` |
| DeliveryTiming.TransferPrematureIff | redis_adapter.go:113-140 | in every run of the whole protocol a transfer is premature if and only if the message was put off again after the scheduler read it, to a time still ahead |
| Scheduler.RoundTakesFront | redis_adapter.go:113-125 | a round publishes in score order the due front of at most 100 items, and exactly these leave |
| Scheduler.RoundsDrain | redis_adapter.go:108-126 | k rounds remove a front of the set of at least min(100k, due) and at most 100k items |
| Scheduler.DrainsInExactly | redis_adapter.go:110-126 | a backlog of N due items is gone if and only if at least N/100 rounds, rounded up, have run |
| RedisAdapter.Redis.constructor | redis_adapter.go:65-66 | an empty server is the empty broker |
| RedisAdapter.StartConsumers | redis_adapter.go:142-149 | starting consumers adds their groups at the beginning of their streams and leaves existing groups alone; an empty server becomes the broker from which all runs begin |
| RedisAdapter.NewGroupStartsAtFirst | redis_adapter.go:148-149 | a new group reads an existing stream from its first entry |
| RedisAdapter.Redis.PublishStream | redis_adapter.go:290-301 | encoding and XADD append the carried message to its stream and change nothing else |
| RedisAdapter.Redis.ReadGroup | redis_adapter.go:243-249 | a group read moves the cursor over one entry into the pending list and returns fields that decode to it |
| RedisAdapter.ConsumeTurn | redis_adapter.go:242-262 | reading one new entry and handling it leaves the broker as specified, and an empty stream leaves it alone |
| RedisAdapter.TurnIsARun | redis_adapter.go:178-262 | such a turn is a legal run of the step machine, the read and then the steps of the handling |
| RedisAdapter.Redis.Ack | redis_adapter.go:182 | an ack removes one pending entry of one group |
| RedisAdapter.Redis.PublishDelay | redis_adapter.go:135-140 | the set holds the message under the millisecond of now plus delay, every other delayed message keeps score and order, and streams and groups are untouched |
| DelayedPublishing.TooEarlyStays | redis_adapter.go:113-125 | a round at an earlier millisecond leaves a delayed message in the set under its score, and everything else happens as if it were not there |
| DelayedPublishing.DueIsSent | redis_adapter.go:113-125 | rounds without failures from its millisecond on send it, at position i by round i/100 + 1 |
| DelayedPublishing.RoundSendsNothingEarly | redis_adapter.go:110-140 | after any PublishDelay calls and rounds, with any failures, all a round adds to streams are messages asked for, none a full millisecond early |
| RedisAdapter.Redis.RemoveItem | redis_adapter.go:124 | ZREM of the encoded item removes exactly its message |
| RedisAdapter.HandleEntry | redis_adapter.go:178-210 | the goroutine of one entry leaves the broker as specified for mismatch, success and failure |
| RedisAdapter.RetryOrGiveUp | redis_adapter.go:188-209 | after a failure the copy is put off before the ack; without a confirmed copy the entry stays pending |
| RedisAdapter.DoneEntry | redis_adapter.go:181-186 | a mismatch or a success takes the entry out of its own group's pending list, and nothing else changes |
| RedisAdapter.ExhaustedEntry | redis_adapter.go:195-208 | so does a failure with all tries used up |
| RedisAdapter.FailedEntry | redis_adapter.go:188-204 | any other failure puts off the message with its count one up until the policy's delay has passed, and the entry goes only if that is confirmed |
| RedisAdapter.PutOffExactly | redis_adapter.go:188-208 | a message that starts without a count is put off after each of its first MaxRetries failures and given up after the next |
| RedisAdapter.HandlingIsARun | redis_adapter.go:178-210 | handling an entry is a legal run of the step machine with the same broker at the end |
| RedisAdapter.SchedulerRound | redis_adapter.go:113-125 | one wake-up of the scheduler transfers and removes the items of its batch one by one, for every combination of a failing range read, failing XADDs and failing ZREMs |
| RedisAdapter.BatchIsARun | redis_adapter.go:118-125 | working through a batch, with any failures, is a legal run of the step machine |
| RedisAdapter.RoundMovesFront | redis_adapter.go:113-125 | without command errors a round moves the due front of the delay set, in score order, to the ends of the right streams, and changes nothing else |
| RedisAdapter.ItemsReachStreams | redis_adapter.go:118-125 | each stream gains exactly its own items of the batch, in order |
| Claiming.AutoClaimMeaning | redis_adapter.go:220-227 | one call claims exactly the idle entries between its start and its new cursor, and gets ahead by at least the count or reaches the end |
| Claiming.FirstTurnCalls | redis_adapter.go:171-235 | a consumer's first answered turn dispatches the oldest pending entry if it is idle for 30 seconds |
| Claiming.ClaimLoop.TryClaim | redis_adapter.go:218-241 | the loop's three variables and the dispatched entries after one turn, for every answer |
| Claiming.CallsAreSpaced | redis_adapter.go:218-231 | after a call the next one comes if and only if two seconds have passed and the command is known |
| Claiming.DispatchedIsIdle | redis_adapter.go:218-238 | only pending entries idle for 30 seconds are dispatched |
| Claiming.AbandonedIsRecovered | redis_adapter.go:218-241 | an entry whose consumer died is claimed at the latest by a computed number of answered calls, however many fail in between |
| ConsumerPool.StepInv | redis_adapter.go:165-179 | tokens and wait count always account for the loop and every goroutine |
| ConsumerPool.BoundedAndDrained | redis_adapter.go:161-179 | in every interleaving running handlers <= tokens <= concurrency, the wait count covers them, and `done` closes only when none runs |
| ConsumerPool.TokenUnlessFull | redis_adapter.go:161-176 | the loop waits for a token exactly while as many handlers run as the concurrency, or one, allows |
| ConsumerPool.NothingAfterClose | rabbitmq_adapter.go:240-298 | after `done` no step is possible |
| ConsumerPool.DrainNeverStuck | rabbitmq_adapter.go:248-298 | a shutdown can always move on |
| Lease.OwnershipIsKept | cron_dist.go:256-276 | a held key stays with its owner except by the owner's own release or its expiry, GET and EXPIRE torn apart or not |
| Lease.OwnershipIsGained | cron_dist.go:241-247 | a key comes to an id if and only if that id does SETNX while nobody holds it |
| Lease.AttemptLeadsIff | cron_dist.go:243-253 | an attempt leads if and only if nobody held the key and the answer arrived, and then holds it for the ttl |
| Lease.GetContinuesIff | cron_dist.go:266-272 | a renewal goes on if and only if its GET is answered with the own id |
| Lease.HandOver | cron_dist.go:262-265 | a stopped leader stops leading at once, and its release lets another lead without waiting for the expiry |
| Lease.LeadsForever | cron_dist.go:256-275 | a leader whose renewals come in time goes on leading, however many |
| Lease.LostLeaseEndsLeadership | cron_dist.go:266-272 | whoever lost the key never holds it again under that id and stops leading at the next completed GET |
| Lease.GoneStaysGone | cron_dist.go:262-272 | an ended attempt never comes back |
| Lease.TornRenewalIff | cron_dist.go:266-273 | for every holder, cancelled or not, its EXPIRE can meet a stranger's key if and only if at least as much time passes since its GET as the key had left then |
| Lease.ExpireProlongsStranger | cron_dist.go:273 | an EXPIRE that meets a stranger's key prolongs it |
| Lease.RenewsOnlyItsOwnIff | cron_dist.go:258-273 | with renewals finished within delta of their deadline no live leader's EXPIRE meets a stranger's key if and only if ttl/3 + delta < ttl |
| Lease.TornRenewalProlongsStranger | cron_dist.go:258-273 | for every ttl, a run in which the first renewal's GET is on time and its EXPIRE prolongs the next leader's lease |
| Lease.SafeStep | cron_dist.go:241-276 | each timely step keeps every live leader the unexpired owner |
| Lease.LateRenewalMakesTwoLeaders | cron_dist.go:258-273 | renewals as late as the expiry allow two leaders |
| Lease.LeaseIsExclusiveIff | cron_dist.go:241-276 | with renewals finished within delta of their deadline there is never more than one live leader if and only if ttl/3 + delta < ttl |
| Lease.LockServer.SetNX | cron_dist.go:243 | set only if absent or expired |
| Lease.LockServer.Expire | cron_dist.go:273 | prolongs whatever unexpired key is there |
| Lease.LockServer.DeleteIfOwner | cron_dist.go:15 | the release script deletes only the releaser's own key |
| Lease.Candidate.constructor | cron_dist.go:241-253 | an attempt leads only if SETNX set the key and the answer arrived |
| Lease.Candidate.RenewalGet | cron_dist.go:266-272 | a foreign value, no value or no answer ends the leadership |
| Lease.Candidate.RenewalExpire | cron_dist.go:273 | the second half of a renewal tick |
| Lease.Candidate.OnDone | cron_dist.go:262-265 | after a cancellation the lock is released if still owned |
| Idempotency.Store.SetNX | middleware_idempotency.go:12-14 | the abstract store: set if absent or expired, with answers that may fail |
| Idempotency.Handle | middleware_idempotency.go:45-66 | run, skip or error, and the marks left behind, for every delivery and store answer |
| Idempotency.KeyOrigin | middleware_idempotency.go:46-51 | the own key comes first, then the function's, then none |
| Idempotency.KeylessAlwaysRuns | middleware_idempotency.go:46-54 | without a key the handler always runs and the store is not touched |
| Idempotency.RunsIffUnmarked | middleware_idempotency.go:55-65 | over any history: with a key the handler runs if and only if the store answers and no mark of that digest is in force; otherwise the delivery is skipped, or fails without an answer |
| Idempotency.StoreKeySpelled | middleware_idempotency.go:37-57 | the store key is the prefix, by default `tq:idem`, a colon and the digest |
| Idempotency.StartsSpaced | middleware_idempotency.go:52-65 | over any history of deliveries the handler starts of one key are at least a TTL apart, and after any existing mark |
| Idempotency.AtMostOncePerWindow | middleware_idempotency.go:41-65 | any stretch of length D sees at most D/TTL + 1 starts of a key |
| Idempotency.RetryIsSwallowed | middleware_idempotency.go:58-64 | a delivery of a marked key within the TTL is skipped as done, also the retry of a failure |
| Idempotency.HandleJob | middleware_idempotency.go:72-82 | the job middleware treats a job as the message made of its name, key and payload |
| Idempotency.JobBlocksJobIff | middleware_idempotency.go:72-82 | under any two names a job that ran makes another be skipped if and only if their keys, or the payload text for a missing key, have one digest and the second comes within the TTL; otherwise it has no influence |
| Jobs.JobArrives | jobs_impl.go:25-39 | an enqueued job reaches the worker with its name, key and payload and a count of zero, at once or delayed, for every nonempty name |
| Jobs.OnlyEmptyNameRefused | jobs_impl.go:26-28 | exactly the empty job name is refused |
| Jobs.Enqueue | jobs_impl.go:25-39 | a job goes onto its stream, or with a delay into the delay set under its due millisecond, with the count "0"; a refused job changes nothing |
| Jobs.JobArrivesAfterRetries | jobs_impl.go:116-120 | it still does after any number of failed deliveries |
| Jobs.ResolveGroupSharedIff | jobs_impl.go:147-168 | two group names resolve alike if and only if they are equal or one is empty and the other the default |
| Jobs.ResolveGroupSpelled | jobs_impl.go:147-168 | the resolved name is the configured prefix, or else the namespace, a dot, and the name or its default |
| Jobs.GroupsOfNamespaces | jobs_impl.go:155-168 | without a configured prefix, workers of different namespaces never share a group |
| Jobs.EmptyRequest | jobs_impl.go:123-126 | an empty request starts one worker in the default group |
| Jobs.SingleRequest | jobs_impl.go:127-143 | one name starts the size asked for, or one |
| Jobs.AddGroup | jobs_impl.go:129-142 | one entry of the request widens the result to the larger size |
| Jobs.NormalizeGroups | jobs_impl.go:123-145 | each resolved group gets the largest size asked for under any name that resolves to it, and no other group appears |
| Jobs.NormalizedIsUnique | jobs_impl.go:123-145 | only one map has this property, so iteration order cannot matter |
| Jobs.StartGroup | jobs_impl.go:49-61 | the workers of one group, up to the first failing Consume |
| Jobs.StartWorkers | jobs_impl.go:42-68 | either exactly the normalised number of consumers per group is added, or some Consume failed and none is left |
| Jobs.Consumers.StopAll | jobs_impl.go:54-56 | stopping a list of consumers removes exactly these |
| Events.EventMessage | eventbus_impl.go:36-45 | the message of an event, metadata copied and the type noted |
| Events.EventRoundTrip | eventbus_impl.go:36-115 | in both modes topic, subject and payload come back for every event, metadata with the type added and without a nameless entry |
| Events.TypeRestoredIff | eventbus_impl.go:101-115 | the type comes back if and only if it is nonempty or the metadata has no nonempty `type` |
| Events.EventRestoredIff | eventbus_impl.go:36-115 | the exact condition for the whole event to come back |
| Events.IsolatedSubscription | eventbus_impl.go:16-28 | an isolated subscription sees exactly its own namespace's events that its bare pattern matches |
| Events.GlobalSubscription | eventbus_impl.go:12-28 | a global subscription sees exactly the events, of every namespace, that its bare pattern matches |
| Events.EventStreams | redis_adapter.go:76-92 | global events share one stream, isolated ones have the stream of their namespace |
| Rabbit.StringMapToTable | rabbitmq_adapter.go:324-333 | in every iteration order the same table |
| Rabbit.TableToStringMap | rabbitmq_adapter.go:335-349 | texts and integers become strings, the rest is dropped |
| Rabbit.OthersAreDropped | rabbitmq_adapter.go:341-346 | other field values are left out |
| Rabbit.TableRoundTrip | rabbitmq_adapter.go:145-173 | headers come back as they went, a delayed message with its delay in milliseconds added, in both delay modes |
| Rabbit.DelayTableSpelled | rabbitmq_adapter.go:149-172 | the delay in whole milliseconds is a number under `x-delay` or its digits under `delay`, and no other header changes |
| Rabbit.HandleDelivery | rabbitmq_adapter.go:265-295 | the copy offered and the verdict for one delivery |
| Rabbit.AckedForAReason | rabbitmq_adapter.go:268-294 | a copy is offered if and only if the handler failed with tries left, and a delivery is acknowledged if and only if it was handled, is exhausted, or its copy was published; the copy differs in headers only and counts one up |
| Rabbit.OfferedExactly | rabbitmq_adapter.go:268-291 | a message that starts without a count is offered again after exactly its first MaxRetries failures, each time with the policy's delay in its header |
| Rabbit.RejectionRoundTrip | rabbitmq_adapter.go:145-295 | after any number of retries only the count and the delay header have changed |

## Left out

- Exactly-once delivery, dead-lettering, and eventual success of failing keyed jobs: the code does not provide them.
- Redis and AMQP clients, connections, exchanges and queue bindings, and RabbitMQ's own queueing and redelivery after a Nack.
- The RabbitMQ leader lock: its guarantee is the broker's exclusive queue.
- The cron parser, firing times and time zones; the leader loop around the lease; and that the schedule mirrors the registry, which it need not after `Remove` or a repeated `Add`.
- `Close` and its deadlines, the logger, no-op implementations, the local cron, the stream manager, middleware ordering, and configuration defaults other than those of retries and namespaces.
- The JSON text of delayed items: an item is a value, and foreign members of the delay set that do not parse are not modelled.
- SHA-1: a function parameter. At most once per window needs nothing of it; that different keys do not interfere would need it to be injective.
- Invalid UTF-8, and header values of other types than text inside stream entries.
- The order of delayed items with equal scores: Redis orders them by their bytes, the model keeps them in the order of arrival.
- Consumer names and the delivery counter inside the pending list.
- Wildcard patterns of `MQ().Consume` outside the shapes of `Routing.ShardingLosesNoMatchIff`: Redis does not route them, as that lemma shows.
- Backoff.TotalDelayBound: does not model float64 rounding; the factor is a real number, and a product beyond 64 bits is excluded by `Backoff.DelaysFit` only.
- Fanout.OneMessageBound: assumes MaxRetries below the largest int, where the retry count would wrap, and counts redelivered entries and repeated transfers as charges of `Fanout.HandlerRunsBounded` instead.
- DelayTiming.NeverEarly: assumes one clock for producers and schedulers, and does not model the float64 score, which is exact for all times up to 2^53 milliseconds.
- Claiming.AbandonedIsRecovered: assumes that the server knows XAUTOCLAIM and that no entry is read beyond the stated limit meanwhile; a group that reads on keeps the cursor from wrapping.
- Delivery.NoSilentLossEver: does not count copies; that each single put-off is answered is `DeliveryLoss.EveryPutOffIsSent`.
- DeliveryLoss.EveryPutOffIsSent: takes any later XADD of the message as the answer, also one that comes too early; when that happens is `DelayTiming.PrematureIff`.
- RabbitMQ subscriptions that share a queue: that the broker delivers each message to one of them only; the queue names are in `Routing`.
- Lease.LeaseIsExclusiveIff: assumes a ttl of at least three clock ticks and one clock for all nodes.
