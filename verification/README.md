# webex-message-handler: verified models of its hard parts

The library receives encrypted Webex activities over a WebSocket (Mercury), fetches the
keys they are sealed under from a key server (KMS) and decrypts them. This project models
the state machines and codecs that do so, in the form the source gives them: classes and
loops where the source updates fields, functions where it computes. Each method is proved
equal to a specification function on the old state; the theorems are about those functions,
over every input and every interleaving of the environment.

| file | models |
|---|---|
| `Kms.dfy` | the Rust KMS client: key cache, three-state breaker, retry loop, shared pending list, reply handler |
| `KmsProtocol.dfy` | the same client as a step machine: calls, posts, reply batches, timeouts and the clock interleave freely |
| `KmsCall.dfy` | a call of that machine, from call to return, is the whole-call function the imperative client is proved against |
| `KmsCancel.dfy` | the pending list when callers drop an initialisation midway |
| `KmsRouting.dfy` | which replies reach the request that caused them, and that cached keys are the server's own answers |
| `KmsTable.dfy` | what a call answers and leaves, case by case, and what a cached key saves |
| `KmsRate.dfy`, `KmsCount.dfy` | how often an opened breaker lets a failing server be asked, and that every request is counted |
| `KmsRuns.dfy`, `KmsProbe.dfy` | concrete runs, and which calls leave the breaker half-open |
| `Backoff.dfy` | the capped exponential backoff shared by the ports |
| `MercuryRust.dfy`, `MercuryGo.dfy`, `MercuryPython.dfy` | the three reconnect machines |
| `MercuryGoRuns.dfy`, `MercuryPythonRuns.dfy` | what the Go goroutines and the Python loop do when left alone or told to stop |
| `Base64.dfy`, `Text.dfy`, `Jwe.dfy`, `ConcatKdf.dfy` | RFC 4648 text, compact serialisation (section 7.1 of RFC 7516), symmetric JWE, Concat KDF (section 4.6.2 of RFC 7518) |
| `Primitives.dfy` | AES-GCM, AES key wrap, SHA-256, UTF-8 and JSON as functions with stated laws |
| `Activity.dfy`, `ActivityRuns.dfy` | decrypting an activity's fields, and doing so with keys fetched over the KMS protocol |
| `Wdm.dfy`, `WdmRuns.dfy`, `WdmState.dfy` | device registration against any server, what runs of it leave there, and what the manager makes of the answers and remembers |
| `ReplayWindow.dfy`, `Ids.dfy`, `Mentions.dfy` | the five-minute replay window, REST ids, mention tags |

Time is a natural number that never decreases. What the environment decides (HTTP outcomes,
replies, random ids and nonces, clock readings, the order of steps) is an input that the
theorems quantify over.

Seven properties one might expect do not hold of the code. Each is shown with a concrete input or
run, and with the exact condition under which the code does what is expected:

- A KMS reply that arrives after its request left the pending list is given to the next
  request, and its key is cached under the wrong URI (`LateReplyIsMisrouted`). Replies are
  routed right exactly when their causes are the oldest pending requests in order
  (`FifoRoutesRightIff`).
- A malformed reply leaves the probing call early with the breaker half-open, and the next
  fetch passes the gate at the same instant (`MalformedReplyLeavesHalfOpen`, a run from a new
  client). `LeavesHalfOpenIff` says which calls do so, and `RateWithoutSuccess` bounds the
  fetches with such replies counted in; a run reaches that bound.
- A display name that is a direct token without a nonce crashes the decryption of its
  activity, so its content and inputs are not opened (`NoNonceCrashes`). Fields are opened
  each on its own exactly when none has such lengths (`FieldsOnTheirOwnIff`).
- In the Rust socket a read error drops the connection but leaves the stability timer
  running, so attempts are forgiven although the connection did not hold
  (`ForgivenWhileDown`). The comment at rust/src/mercury_socket.rs:102-106 says the counter
  clears once the connection holds; the model follows the code, and `ExpiryMeansHeld` says
  exactly when the connection is still up at an expiry.
- In the Go socket the numbers reported need not start over at a reset, because a report is
  made after its increment's lock is released: a run from a new socket reports 1 and then 1
  again after a reset (`ReportAfterReset`). From the second report on, those after a reset are
  1,2,3,... exactly if no goroutine stood between its increment and its report at the reset
  (`ReportsStartOverIff`).
- A raw id with a character outside the base64 alphabet is not always left alone by the
  normalisation: the padding is such a character (`PaddedIdIsNotKept`). An id is left alone
  exactly when it does not itself look like a REST id (`RawIsKeptIff`).
- A person id `group:x` and a group `x` collide in the mention parser's shared seen set
  (`ClashLosesAMention`); `ParsePrinted` says the result is the expected one exactly when no such pair occurs.

## Model

| member | source | states |
|---|---|---|
| Kms.PendingList.Register | rust/src/kms_client.rs:442-462 | a request joins the end of the list exactly when fewer than 100 are pending; otherwise nothing changes |
| Kms.PendingList.Forget | rust/src/kms_client.rs:483-516 | a failed or timed-out send removes its own id and no other, and leaves the channels alone |
| Kms.RetainInOrder | rust/src/kms_client.rs:487-514 | the requests that stay keep their order |
| Kms.KmsResponseHandler.HandleKmsMessage | rust/src/kms_client.rs:57-93 | a batch gives its text messages, in order, to the oldest pending requests; other elements are skipped, and replies beyond the list are dropped |
| Kms.KmsClient.GetKey | rust/src/kms_client.rs:324-439 | a whole call moves cache, context and breaker, and answers, as the whole-call function says for any clock, handshake and send outcomes, replies that cannot be unwrapped without a panic among them |
| Kms.KmsClient.RetryLoop | rust/src/kms_client.rs:353-438 | the loop is the recursive description of the attempts still to make |
| KmsTable.CachedIsReturned | rust/src/kms_client.rs:325-329 | a cached key is returned as it is, whatever the breaker and the environment, and nothing else changes |
| KmsTable.GetKeyTable | rust/src/kms_client.rs:331-439 | without a cached key: the error of a failed handshake, the breaker's refusal within 30 seconds of the last failure, or the outcome of the deciding send with its effect on cache, failures and breaker |
| KmsTable.ContextLasts | rust/src/kms_client.rs:523-534 | a context of one hour is renewed exactly from 59 minutes and 30 seconds on |
| KmsTable.CachedCall | rust/src/kms_client.rs:325-329 | in the protocol a call for a cached URI is answered in its own step, which sends nothing and changes nothing else |
| KmsTable.SuccessCaches | rust/src/kms_client.rs:413-421 | a usable reply ends the fetch with its key cached and returned |
| KmsTable.UncachedIff | rust/src/kms_client.rs:331-335 | a key leaves the cache exactly when a call for an uncached URI finds more than 100 |
| KmsTable.CachedIsNotFetched | rust/src/kms_client.rs:325-439 | from then on until the cache is cleared, no retrieve is sent for that URI in any run, and every call for it returns that key |
| KmsProtocol.RunInv | rust/src/kms_client.rs:324-521 | every interleaving of steps keeps the joint invariant of mailbox, breaker, cache and context |
| KmsProtocol.SinglePending | rust/src/kms_client.rs:442-521 | in every run of exclusive callers that see their calls through, at most one request is pending, the list is empty whenever no send is under way, the channel never drops and no call ever fails on the 100-request bound or a missing context |
| KmsCancel.PendingWithDrops | rust/src/kms_client.rs:442-521 | when callers may also drop `initialize` midway, at most as many requests as drops are pending outside a send, and one more inside |
| KmsCancel.BoundNeedsDrops | rust/src/kms_client.rs:449-461 | so a send meets the 100-request bound only after 100 drops |
| KmsCancel.TwoPending | rust/src/handler.rs:386-389 | one drop is enough for two pending requests |
| KmsProtocol.BreakerAndCache | rust/src/kms_client.rs:332-434 | in every reachable state the breaker is closed iff there were fewer than 3 failures, an open one has a failure time, and at most 101 keys are cached |
| KmsCall.CallIsGetKey | rust/src/kms_client.rs:324-439 | under every interleaving, a call that returns leaves the client and gives the answer of the whole-call function for an environment of what happened: entered at the time of the call, every other clock reading between call and return, every timeout at least 30 seconds in, every reply one that was delivered |
| KmsRouting.RouteAllExact | rust/src/kms_client.rs:70-92 | the i-th reply of a batch ends in the channel of the i-th pending request, and no other channel changes |
| KmsRouting.FifoRoutesRightIff | rust/src/kms_client.rs:57-93 | with one reply per request, every reply reaches its cause iff the causes are, in order, the oldest pending requests |
| KmsRouting.OrderlyReachesCause | rust/src/kms_client.rs:57-93 | in every invariant state, one reply per request and none late means every reply reaches its cause |
| KmsRouting.CachedRefinesDirect | rust/src/kms_client.rs:324-439 | every orderly run shows only calls and returns that a client without cache, asking the KMS directly, shows |
| KmsRouting.KeysAreTrue | rust/src/kms_client.rs:324-439 | from a new client on, every cached and every returned key is the KMS's answer for its URI |
| KmsRouting.LateReplyIsMisrouted | rust/src/kms_client.rs:85-92 | without that hypothesis a run exists that caches A's key under B |
| KmsRate.RateWithoutSuccess | rust/src/kms_client.rs:344-434 | with the breaker open and no fetch succeeding, a window of length T sees at most floor(T/30s)+1+M fetches past the gate and twice as many retrieve POSTs, M counting the malformed replies |
| KmsRate.OutageRate | rust/src/kms_client.rs:344-434 | if every fetch past the gate fails in its send, the bounds are floor(T/30s)+1 and twice that |
| KmsCount.AllRecorded | rust/src/kms_client.rs:353-385 | the fetches and POSTs counted are exactly the retrieve requests sent, one for one |
| KmsRate.WindowBound | rust/src/kms_client.rs:344-351 | times of which any k+1 span a cooldown put at most k(floor(T/30s)+1) into any window of length T |
| KmsProbe.LeavesHalfOpenIff | rust/src/kms_client.rs:344-434 | a call leaves the breaker half-open iff the breaker was not closed and the call either fetched and had its last send answered without a key, or did not fetch and found it half-open |
| KmsProbe.MalformedReplyLeavesHalfOpen | rust/src/kms_client.rs:387-411 | for every unusable reply body, a run from a new client opens the breaker, gets that reply to its probe and lets another fetch by at the same instant, which reaches the bound for one malformed reply |
| Backoff.DelaysNondecreasing | rust/src/mercury_socket.rs:444 | later attempts never sleep less |
| Backoff.DelayCapped | rust/src/mercury_socket.rs:444 | a delay is the smaller of the cap and its power of two |
| Backoff.TotalSleepBound | python/src/webex_message_handler/mercury_socket.py:344-347 | M attempts under cap B sleep at most M times B |
| Backoff.TotalSleepExact | python/src/webex_message_handler/mercury_socket.py:344-347 | with B = 2^k and k <= M they sleep exactly 2^k - 1 + (M-k) 2^k |
| MercuryRust.MercurySocket.Connect | rust/src/mercury_socket.rs:107-117 | connecting re-enables reconnecting, drops the pending reset, schedules a new one only on success and never touches the counter |
| MercuryRust.MercurySocket.HandleClose | rust/src/mercury_socket.rs:399-457 | state, events and backoff of a close, for terminal codes, a manual close, giving up and another attempt |
| MercuryRust.MercurySocket.StabilityElapsed | rust/src/mercury_socket.rs:122-132 | an expiry zeroes the counter and emits nothing |
| MercuryRust.MercurySocket.Disconnect | rust/src/mercury_socket.rs:460-467 | disconnecting stops reconnecting, cancels the reset and emits one event |
| MercuryRust.RunInv | rust/src/mercury_socket.rs:107-137 | in every run the attempts announced since the last expiry are 1..counter and the counter never exceeds the maximum; every reconnect-needed follows an announcement of its own by at least that attempt's backoff |
| MercuryRust.MercurySocket.FinishBackoff | rust/src/mercury_socket.rs:450-453 | after its sleep a close emits reconnect-needed and changes nothing else |
| MercuryRust.StepTimer | rust/src/mercury_socket.rs:119-150 | every step keeps that a reset in the slot belongs to the last successful connect, unbroken since, and is due exactly one window after it |
| MercuryRust.SleepSinceExpiry | rust/src/mercury_socket.rs:435-450 | the sleeps announced since the last expiry add up to the backoff total of the counter, at most counter times the cap |
| MercuryRust.GivesUpIff | rust/src/mercury_socket.rs:434-441 | a close emits max-attempts-exceeded exactly if it is not terminal, reconnecting is on and the counter stands at the maximum |
| MercuryRust.CloseEmits | rust/src/mercury_socket.rs:417-456 | which events a close emits: the next attempt iff reconnecting is on, the code is not final and the counter below the maximum; giving up iff it is at the maximum; manual iff reconnecting is off; each final code its own reason |
| MercuryRust.CloseLeaves | rust/src/mercury_socket.rs:412-456 | only a close that announces an attempt leaves reconnecting on, counts, and goes to sleep; all drop the connection and the reset |
| MercuryRust.ConnectLeaves | rust/src/mercury_socket.rs:107-137 | a connect turns reconnecting on and keeps the counter, and exactly a successful one starts a new window |
| MercuryRust.OthersLeave | rust/src/mercury_socket.rs:122-132 | an expiry clears the counter, a read error the connection, a disconnect both flags and the reset, and none anything else |
| MercuryRust.FlapsAnnounce | rust/src/mercury_socket.rs:107-117 | n closes with a connect between them and no expiry announce exactly the next n attempts, as far as the maximum goes |
| MercuryRust.FlapsFromStart | rust/src/mercury_socket.rs:412-445 | from a new socket they announce 1,2,3,... up to the lesser of n and the maximum |
| MercuryRust.SilentUntilConnect | rust/src/mercury_socket.rs:434-457 | once reconnecting is off, no Reconnecting event follows in any run without a connect |
| MercuryRust.OnlyExpiryLowers | rust/src/mercury_socket.rs:107-137 | no step but an expiry lowers the counter |
| MercuryRust.ExpiryMeansHeld | rust/src/mercury_socket.rs:107-150 | an expiry comes one window after a successful connect with no connect, close or disconnect in between; the connection is then up iff no read error came in between |
| MercuryRust.FlapStormIsBounded | rust/src/mercury_socket.rs:412-445 | a run in which no connection holds for the window announces at most the maximum of attempts, however often it reconnects |
| MercuryRust.ForgivenWhileDown | rust/src/mercury_socket.rs:294-307 | after a read error the timer still zeroes the counter while the connection is down |
| MercuryGo.GuardedLoop | go/mercury_socket.go:443-536 | under every goroutine interleaving one goroutine at most is in the loop, the counter stays within the maximum, the numbers taken since the last reset are 1,2,3,..., the reports are those numbers in order and at most one behind, all in 1..max, and r resets allow at most max(r+1) of them |
| MercuryGo.ReportAfterReset | go/mercury_socket.go:472-485 | a run from a new socket in which Connect zeroes the counter between an increment and its report, after which 1 is reported twice |
| MercuryGo.ReportsAfterReset | go/mercury_socket.go:472-485 | the reports after a reset are the number then taken but not reported, if there is one, followed by 1,2,3,... |
| MercuryGo.ReportsStartOverIff | go/mercury_socket.go:472-485 | from the second on, they are 1,2,3,... iff no goroutine stood between its increment and its report at the reset |
| MercuryGo.NoticesNeedConnects | go/mercury_socket.go:463-470 | there are no more max-attempts-exceeded notices than Connect calls, and none before a maximum of attempts |
| MercuryGo.StepInv | go/mercury_socket.go:564-575 | each single step keeps the flag equal to "some goroutine is inside" and the checked cap valid until the increment |
| MercuryGoRuns.AloneGivesUp | go/mercury_socket.go:443-536 | left alone with dials that fail, a reconnect makes every attempt up to the maximum in order, gives one notice, and turns reconnecting and the flag off |
| MercuryGoRuns.AloneConnects | go/mercury_socket.go:443-536 | left alone with n dials that fail and one that succeeds, it makes exactly n+1 attempts, arms a new timer and leaves reconnecting on |
| MercuryGoRuns.EntersIff | go/mercury_socket.go:564-575 | a reconnect goes on iff reconnecting is on and nobody is in the loop, and otherwise changes nothing |
| MercuryGoRuns.StopsWhenTold | go/mercury_socket.go:458-460 | told to stop at the top of the loop or after its sleep, it dials no more and clears the flag |
| MercuryGoRuns.Connects | go/mercury_socket.go:138-149 | Connect turns reconnecting on, cancels the timer and clears the counter |
| MercuryGoRuns.Disconnects | go/mercury_socket.go:578-588 | Disconnect turns reconnecting off and cancels the timer |
| MercuryGoRuns.ClosesAre | go/mercury_socket.go:403-441 | a close cancels the timer; a terminal one turns reconnecting off, another goes on to reconnect iff it is on |
| MercuryGoRuns.TimerClears | go/mercury_socket.go:523-530 | a timer that fires clears the counter and its slot |
| MercuryGo.MercurySocket.TriggerEnter | go/mercury_socket.go:564-571 | test and set of the flag is one step of the machine |
| MercuryGo.MercurySocket.CheckLoop | go/mercury_socket.go:451-462 | the cap check only reads, and picks the machine's next step |
| MercuryGo.MercurySocket.GiveUp | go/mercury_socket.go:463-465 | giving up is the machine's step, and the notice outside the lock comes next |
| MercuryGo.MercurySocket.Increment | go/mercury_socket.go:472-475 | the increment is the machine's step and yields the attempt it reports |
| MercuryGo.MercurySocket.ScheduleAttemptsReset | go/mercury_socket.go:516-536 | scheduling stops the pending timer, arms a new one and puts it into the slot, as the machine's step does |
| MercuryGo.MercurySocket.CancelStabilityTimer | go/mercury_socket.go:539-546 | cancelling stops the pending timer and empties the slot, as the machine's step does |
| MercuryGo.MercurySocket.Release | go/mercury_socket.go:444-448 | the deferred clearing of the flag is the machine's step |
| MercuryPython.LoopBounded | python/src/webex_message_handler/mercury_socket.py:324-374 | whatever runs during its awaits short of a caller's connect, the loop ends after at most 2 max attempts, all in 1..max, and ends connected with a reset pending, told to stop, or announcing that it gave up with the counter at the maximum |
| MercuryPython.BoundIsReached | python/src/webex_message_handler/mercury_socket.py:324-398 | for every maximum some environment makes the loop take exactly 2 max attempts |
| MercuryPython.LoopNumbers | python/src/webex_message_handler/mercury_socket.py:342-352 | attempts count up without gaps from the counter on entry, or start over at 1 |
| MercuryPython.LoopRestarts | python/src/webex_message_handler/mercury_socket.py:386-393 | they start over at most once, and only if a reset was pending on entry |
| MercuryPython.LoopSleep | python/src/webex_message_handler/mercury_socket.py:343-354 | the loop sleeps at most the cap per attempt |
| MercuryPythonRuns.CallbacksAre | python/src/webex_message_handler/mercury_socket.py:297-322 | callbacks of any number and order stop reconnecting iff one tells to, leave the timer pending iff only pong timeouts ran, and clear the counter iff the timer came before anything that cancels it |
| MercuryPythonRuns.AloneConnects | python/src/webex_message_handler/mercury_socket.py:324-374 | with n dials that fail and one that succeeds, the loop makes exactly n+1 attempts, sleeps their delays and ends connected with a reset pending |
| MercuryPythonRuns.AloneGivesUp | python/src/webex_message_handler/mercury_socket.py:334-341 | with dials that all fail, it makes every attempt up to the maximum, announces giving up and turns reconnecting off |
| MercuryPythonRuns.StopsAsleep | python/src/webex_message_handler/mercury_socket.py:354-357 | told to stop while it sleeps, it ends without dialling |
| MercuryPythonRuns.StopsDialling | python/src/webex_message_handler/mercury_socket.py:359-372 | told to stop while it dials, it ends after that dial, connected iff it succeeded |
| MercuryPython.MercurySocket.Await | python/src/webex_message_handler/mercury_socket.py:297-322 | the callbacks of one await, in order, do what the fold of their effects says |
| MercuryPython.MercurySocket.TakeTurn | python/src/webex_message_handler/mercury_socket.py:334-372 | one turn of the body: state, announced attempt, sleep, whether to go on and whether giving up was announced |
| MercuryPython.MercurySocket.Reconnect | python/src/webex_message_handler/mercury_socket.py:324-374 | single entry; otherwise state, announcements, sleep and result of the whole loop, and the flag is cleared on every exit |
| Base64.RoundTrip | rust/src/jwe.rs:354-388 | for bytes of any length, decoding an encoding gives them back |
| Base64.EncodedText | rust/src/jwe.rs:354-388 | an encoding holds neither dot nor padding, and never has a length one more than a multiple of four |
| Base64.Canonical | rust/src/jwe.rs:354-388 | text that decodes is the encoding of what it decodes to |
| Base64.PaddedRoundTrip | rust/src/id_utils.rs:11-25 | the same round trip with padding |
| Base64.PaddedCanonical | rust/src/id_utils.rs:11-25 | padded text that decodes is the padded encoding of what it decodes to |
| Base64.GroupBits | rust/src/jwe.rs:354-388 | three bytes and their four characters are the same 24 bits, first ones highest |
| Base64.LastBits | rust/src/jwe.rs:354-388 | one or two last bytes are filled up with zero bits |
| Base64.AlphabetOrder | rust/src/id_utils.rs:11-25 | the alphabets are A to Z, a to z, 0 to 9 and the two last characters of each |
| Text.SplitJoin | rust/src/jwe.rs:354-361 | joining dot-free parts and splitting gives the parts |
| Text.JoinSplit | rust/src/jwe.rs:354-361 | splitting and joining gives the text |
| Text.PartsAndDots | rust/src/jwe.rs:317-333 | there is one part more than dots, so the dispatch on dots agrees with the parser's part count |
| Jwe.ParsePrint | rust/src/jwe.rs:354-388 | a printed token has four dots and parses to the same five parts |
| Jwe.PrintParse | rust/src/jwe.rs:354-388 | a token that parses is the print of its parts |
| Jwe.CompactOpens | rust/src/jwe.rs:390-417 | the tag split off at sealing and rejoined at opening is the identity, with a 16-byte tag |
| Jwe.DecryptPrinted | rust/src/jwe.rs:187-218 | decrypting a printed token is decrypting its parts under its own header text, by either entry point |
| Jwe.DirRoundTrip | rust/src/jwe.rs:76-112 | direct encryption is undone, for every plaintext, 32-byte key, kid and IV |
| Jwe.KwRoundTrip | rust/src/jwe.rs:115-156 | key-wrapped encryption is undone, for every plaintext, wrapping key, content key and IV |
| Jwe.PanicsIff | rust/src/jwe.rs:187-218 | for every token, decryption panics exactly on the nonce and wrapped-key lengths named, and otherwise returns |
| Jwe.DecryptsIff | rust/src/jwe.rs:187-218 | for every token, decryption gives m exactly if the token is the print of parts that the suite opens to m under the key or the key wrapped for it, bound to the header as it stands |
| Jwe.MalformedIff | rust/src/jwe.rs:354-388 | the wrong number of parts iff there are not four dots, bad base64 iff there are four and the token prints no parts |
| Jwe.PrintedErrors | rust/src/jwe.rs:187-218 | header, algorithm, unwrapping and key length errors, each exactly where it arises |
| Jwe.SignedIff | rust/src/jwe.rs:317-333 | a response of three parts gives m exactly if its middle part is the encoding of m |
| Jwe.UnwrapKinds | rust/src/jwe.rs:317-333 | responses of five parts are decrypted, and those of neither three nor five refused |
| Jwe.DirToken | rust/src/jwe.rs:76-112 | a direct token says dir, A256GCM and a non-empty kid, has no encrypted key, and carries the sealed text with a 16-byte tag |
| Jwe.KwToken | rust/src/jwe.rs:115-156 | a key-wrapped one says A256KW and A256GCM and carries the wrapped content key |
| ConcatKdf.Derive | rust/src/jwe.rs:420-460 | the derived key has exactly bits/8 bytes, byte j being byte j mod 32 of hash j/32 + 1 |
| ConcatKdf.BlockInjective | rust/src/jwe.rs:434-456 | the hashed block determines counter, secret, algorithm, apu, apv and key length |
| ConcatKdf.BlockLayout | rust/src/jwe.rs:434-456 | the hashed block byte by byte: big-endian counter, secret, algorithm, apu and apv each after its big-endian length, big-endian key length, and no more |
| ConcatKdf.Be32Value | rust/src/jwe.rs:436 | the four bytes of a number, first one highest, are worth the number |
| ConcatKdf.FieldInjective | rust/src/jwe.rs:434-447 | a length-prefixed field and what follows it can be told apart |
| Activity.DecryptActivity | rust/src/message_decryptor.rs:23-134 | without a key URL the activity is returned and the client untouched; otherwise the key fetch moves the client and its key opens the fields, or its error is returned, or the call crashes |
| Activity.DecryptCrashesIff | rust/src/message_decryptor.rs:47-134 | a call crashes iff its key fetch does or its key meets a field with the lengths that panic |
| Activity.Overwrite | rust/src/message_decryptor.rs:64-133 | overwriting field by field gives the three fields opened from the original |
| Activity.KeyUrlIsFirst | rust/src/message_decryptor.rs:27-45 | the key URL is the first non-empty one of activity, object and target |
| Activity.OtherFieldsKept | rust/src/message_decryptor.rs:64-133 | nothing but display name, content and inputs ever changes |
| Activity.OpenFieldsPanicsIff | rust/src/message_decryptor.rs:67-131 | opening the fields panics iff one that is present is a token with such lengths |
| Activity.NoNonceCrashes | rust/src/message_decryptor.rs:67-80 | a display name sent as a direct token without a nonce crashes every activity, whatever its content and inputs |
| Activity.FieldsOnTheirOwnIff | rust/src/message_decryptor.rs:67-131 | each field becomes what that field alone decrypts to, or keeps its value if it does not decrypt or decrypts to no text or JSON, iff no field panics |
| Activity.FieldsIndependent | rust/src/message_decryptor.rs:67-131 | where none panics, each field's outcome depends on that field alone, and a field that opens to nothing keeps its value |
| Activity.TextInIff | rust/src/message_decryptor.rs:67-98 | a field opens to a text exactly if the suite opens it to the bytes of one |
| Activity.JsonInIff | rust/src/message_decryptor.rs:101-131 | the inputs open to a value exactly if the suite opens them to the JSON of one |
| Activity.UnopenedKept | rust/src/message_decryptor.rs:67-131 | a field that the suite does not open, sealed under another key say, keeps its value |
| Activity.OpenedReplaced | rust/src/message_decryptor.rs:67-131 | a field that it opens becomes the text or value, or keeps its own if the bytes are neither |
| Activity.FinalizedIff | rust/src/types.rs:215-220 | only inputs that came as a string are moved to the encrypted form |
| Activity.SealedActivityRestored | rust/src/message_decryptor.rs:64-133 | sealing, receiving and opening an activity restores it, each field sealed in either way |
| Activity.SealedActivityDecrypted | rust/src/message_decryptor.rs:23-134 | end to end: if the key fetch for the activity's own URL yields the key, decrypting the sealed activity as received gives the original |
| ActivityRuns.SealedUnderTruth | rust/src/message_decryptor.rs:23-134 | after and during orderly KMS runs, an activity sealed under the KMS's own key for its URL is restored by every decryption whose key fetch succeeds |
| Kms.CallKeepsSize | rust/src/kms_client.rs:408-412 | a call keeps all cached keys at 32 bytes and answers with one of 32 bytes |
| ReplayWindow.WebexMessageHandler.CheckReplay | go/handler.go:607-626 | a delivery is processed iff its id is not remembered, and the map becomes what recording and sweeping make of it |
| ReplayWindow.Remembered | go/handler.go:607-626 | a processed id stays in the map until a sweep more than five minutes later |
| ReplayWindow.ReplayGap | go/handler.go:607-626 | two processed deliveries of one id are more than five minutes apart |
| ReplayWindow.SizeBound | go/handler.go:618-626 | the map always holds between F and F+99 entries, F being what the last sweep kept |
| ReplayWindow.KeptAreRecent | go/handler.go:618-625 | whatever a sweep keeps is at most five minutes old |
| ReplayWindow.ProcessedIff | go/handler.go:607-626 | a delivery is processed exactly if each earlier processed one of its id was forgotten by a sweep more than five minutes after it |
| ReplayWindow.MapIs | go/handler.go:607-626 | the map holds for each id the time of the processed delivery not yet forgotten, and nothing else |
| Ids.FromToRestIdIff | rust/src/id_utils.rs:11-25 | reading a REST id back gives the uuid iff it has no slash |
| Ids.RawIsKeptIff | rust/src/handler.rs:65-87 | a raw id is left as it is iff it does not decode, padded or unpadded, to text of the scheme with something after its last slash |
| Ids.RestFormsNormaliseIff | rust/src/handler.rs:65-87 | REST id and unpadded REST id are each read as the uuid iff it is not empty and has no slash |
| Ids.AllFormsNormaliseIff | rust/src/handler.rs:65-87 | all three forms normalise to the uuid iff it is not empty, has no slash and does not look like a REST id |
| Ids.AllFormsNormalise | rust/src/handler.rs:65-87 | so they do for a non-empty slash-free uuid with a character, such as a hyphen, that is neither in the alphabet nor the padding |
| Ids.PaddedIdIsNotKept | rust/src/handler.rs:65-87 | the id Y2lzY29zcGFyazovL2E= has a character outside the alphabet and no slash, and is read as "a" |
| Ids.RestIdInjective | rust/src/id_utils.rs:11-15 | REST ids of slash-free types tell type and uuid apart |
| Ids.RestIdSpelt | rust/src/id_utils.rs:11-15 | a REST id is the padded base64 of ciscospark://us/, the type, a slash and the uuid |
| Ids.FromRestIdIff | rust/src/id_utils.rs:17-25 | exactly which texts are read as which uuid, the part after the last slash, and which give which error |
| Ids.LooksRead | rust/src/handler.rs:74-84 | an id that is not left alone is read as what follows the last slash of its decoded text |
| Mentions.ParseMentions | node/src/mention-parser.ts:15-50 | the match loop collects the mentions of all tags, in order |
| Mentions.AddTag | node/src/mention-parser.ts:30-46 | one tag adds at most one new person or group, and records it as seen |
| Mentions.DedupesIff | node/src/mention-parser.ts:28-46 | people and groups are the first occurrences of each kind iff no person id is "group:" and a group kind |
| Mentions.ClassifyPrinted | node/src/mention-parser.ts:30-46 | a printed tag, with its attributes in either order, is read back as its mention |
| Mentions.AttrIff | node/src/mention-parser.ts:16-18 | an attribute's value is the one of the leftmost match |
| Mentions.TagLengthIff | node/src/mention-parser.ts:15 | a tag reaches to its first '>' |
| Mentions.TagsAre | node/src/mention-parser.ts:26-28 | tags are found from left to right, each search going on where the last match ended |
| Mentions.ClassifyIff | node/src/mention-parser.ts:29-46 | which attributes make a tag mention a person or a group |
| Mentions.CaseIsIgnored | node/src/mention-parser.ts:15-18 | letter case makes no difference to a match |
| Mentions.ParsePrinted | node/src/mention-parser.ts:15-50 | parsing printed HTML gives the deduped non-empty person ids and group kinds in order, iff there is no such clash |
| Mentions.ClashLosesAMention | node/src/mention-parser.ts:34-45 | in every HTML printed from a group mention and then a person whose id is "group:" and that kind, the person is lost |
| Wdm.DeviceManager.DiscoverWdmBase | rust/src/device_manager.rs:41-123 | the base is asked for once, comes from the catalog only if present and valid, and is kept |
| Wdm.DeviceManager.List | rust/src/device_manager.rs:269-312 | the parsable entries of an accepted list, in order, or none on any failure |
| Wdm.DeviceManager.FindReusableDevice | rust/src/device_manager.rs:219-237 | the first own device listed; a failed list counts as none |
| Wdm.DeviceManager.Create | rust/src/device_manager.rs:166-217 | one POST; the device URL is set only by an accepted answer |
| Wdm.DeviceManager.ReapOwnDevices | rust/src/device_manager.rs:239-267 | each own device then listed is asked to be deleted, in order, whatever the answers |
| Wdm.DeviceManager.RefreshDevice | rust/src/device_manager.rs:331-384 | one PUT to the current device, or an error without a request |
| Wdm.DeviceManager.RegisterDevice | rust/src/device_manager.rs:137-164 | reuse, else create, with one reap and retry on 403 |
| Wdm.DeviceManager.UnregisterDevice | rust/src/device_manager.rs:387-422 | a device is forgotten only when its DELETE is accepted or answered 404 |
| WdmRuns.RegisterRequests | rust/src/device_manager.rs:137-164 | every register call's trace is [U2C] GET [PUT] and then nothing, POST, or POST GET DELETE* POST, each optional part exactly when its condition holds |
| WdmState.RegisterByAnswers | rust/src/device_manager.rs:137-164 | by the answers alone: nothing follows an accepted PUT, and a second POST follows exactly a first one answered 403 |
| WdmState.RegisterLeaves | rust/src/device_manager.rs:137-217 | the result is what the last answer amounts to; a success is remembered by the URL refreshed or given, a failure leaves what was remembered, or nothing after a refused refresh |
| WdmState.RegisteredThen | rust/src/device_manager.rs:331-422 | after a successful register, refresh puts and unregister deletes exactly that device |
| WdmState.RefreshAsks | rust/src/device_manager.rs:331-384 | a refresh asks for one PUT of the remembered device, or for nothing |
| WdmState.UnregisterAsks | rust/src/device_manager.rs:387-422 | an unregister asks for one DELETE and forgets the device iff the answer is accepted or 404; each error exactly where it arises |
| WdmState.AcceptIff | rust/src/device_manager.rs:185-215 | exactly which answers register or refresh a device, and which error the others give |
| WdmState.BaseOfLink | rust/src/device_manager.rs:65-96 | the base is the catalog's link without its last slashes and with /devices |
| WdmState.BaseByDefault | rust/src/device_manager.rs:41-123 | without a usable link it is the default |
| WdmState.ListsIff | rust/src/device_manager.rs:269-312 | exactly which answers list devices |
| WdmState.ParsedInOrder | rust/src/device_manager.rs:303-311 | the entries that parse are kept in order |
| WdmState.ReusesFirst | rust/src/device_manager.rs:219-237 | the device reused is the first own one with a URL |
| WdmRuns.RegisterDeletesListed | rust/src/device_manager.rs:137-164 | every DELETE of a register call comes, with only DELETEs in between, after a GET whose answer lists its target as a device of this client |
| WdmState.DeletesInOrder | rust/src/device_manager.rs:243-262 | a reap asks for one DELETE of each own device of the list, in its order |
| WdmRuns.RegisterKeepsOne | rust/src/device_manager.rs:137-164 | against a server that lists truthfully and honours refresh, a register call leaves at most one own device |
| WdmRuns.AtMostOneDevice | rust/src/device_manager.rs:137-422 | so does every sequence of register, refresh and unregister calls |
| WdmRuns.UnlistedDevicesPileUp | rust/src/device_manager.rs:219-237 | if listing fails, two register calls leave two own devices |
| WdmRuns.RefusedDevicesPileUp | rust/src/device_manager.rs:137-164 | so they do if listing is truthful but the refresh is refused |

## Left out

- Internals of AES-GCM, AES key wrap, SHA-256, UTF-8 and JSON: functions with inverse and length laws (`Primitives.Laws`; of UTF-8 also that ASCII text is its codes and that text is no longer than its bytes); the JWE header is a record with a print and parse law.
- RSA-OAEP and ECDH-ES encryption and decryption (rust/src/jwe.rs:24-73, 224-306); of the latter only its Concat KDF is modelled.
- The handshake body of `initialize` (rust/src/kms_client.rs:171-321): a details fetch, one send and an answer, ending in a new key and expiry or an error. Unwrapping a key reply gives one of four kinds of body; a failure to encrypt the request is not modelled.
- A panic while unwrapping a KMS reply ends the call without a return; it is the outcome `Panicked`, with the client as the call left it. What becomes of the thread that panicked is not modelled.
- Kms.KmsClient.GetKey: its sends and waits are outcomes of an environment; `KmsProtocol` opens them up into steps, and `KmsCall` connects the two.
- KmsCancel.PendingWithDrops: only an `initialize` that no fetch waits for is dropped midway; the key fetches of the event loop are seen through.
- Exclusive use of the KMS client (rust/src/handler.rs:386-389, 429-446) is the protocol machine's single phase; the locks themselves are not modelled.
- Wrap-around of the 32-bit counters `cb_failures` and `reconnect_attempts`: the first needs 2^32 failures, the second is bounded by the configured maximum.
- Floating-point rounding of the backoff: delays are reals.
- The `for` loop of Go's `reconnect` is the set of program points of a goroutine, because other goroutines run between any two of its critical sections; the class holds those sections.
- MercuryRust.MercurySocket.StabilityElapsed: the spawned timer may run at or after its deadline, not only exactly at it.
- In the Go machine a step is one critical section or one action outside any. In the Rust machine a connect is taken whole, from its call to the scheduling of the timer, and a close up to its backoff sleep, although the source awaits within both; shutdown notification, ping and pong and message routing are left out.
- MercuryPython.LoopBounded: callbacks that raise, and a caller's connect while the loop runs, are not modelled.
- ConcatKdf.BlockInjective: secrets are 32 bytes and fields shorter than 2^32 bytes, as the callers make them; longer fields have their length cast to 32 bits by the code, and that cast is in the model.
- `set_wdm_devices_url` (rust/src/device_manager.rs:125-127): it sets the base without discovery.
- HTTP and WebSocket adapters, logging, metrics, configuration checks and examples.
- The Go and Node KMS clients, the Node reconnect path and the Rust replay map, which differ in ways that make these properties false or empty there.
- Liveness, such as every drop leading to a reconnect.
