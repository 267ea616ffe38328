# vmon, verified

A Dafny 4.11 model of the two cores of vmon and of the code that uses them:

* **jsmn** (`contrib/jsmn/jsmn.c`), the JSON tokenizer that keeps no stack: a parser object that
  walks a text and fills a flat token array, in the default build and in the one with parent
  links; the size-driven walk and the reading loop of `contrib/jsmn/example/jsondump.c`; and the
  request walk of `src/sampler.c`.
* **the thread pool**: the ring buffer of `lib/ringbuffer.c`, as a block of bytes and as a wait
  protocol, and the executor of `lib/executor.c` as a step system with any number of threads.

`dafny verify dfyconfig.toml` checks everything.

## What is proved

*Tokenizer.* Printing any JSON tree in any layout and parsing it gives back the preorder listing of
the tree, in both builds. The two algorithms agree on every JSON text, also when tokens run out, and
go in step on every other text until the default one meets a closing bracket with nothing open. A
fresh parse succeeds if and only if the text is spelled by strings with the escapes of RFC 8259,
printable words and punctuation, its brackets are balanced and there are enough tokens. It fails as
invalid if and only if no longer text would succeed, and as partial if and only if a longer one
would. The backward scans are the explicit stack they replace. Stopping for more text or more tokens
and going on is the same as never having stopped, if and only if no stop was inside a primitive. The
counting mode is exact. On arbitrary input the spans stay nested and every size is the number of
tokens made under its token.

*Users of the tokens.* `dump` on a parsed text shows exactly the tree, seeing every token once, in
order. The doubling loop ends and loses nothing. The request walk never leaves the tokens. Members with
other keys than its two it steps over if and only if no string in them compares equal to a key; then it
accepts exactly the objects whose `req-id` and `get-stats` members are well formed, and sets exactly
the flags they name. Every text that is not that of an object in 32 tokens it refuses. A request it
loses silently is given.

*Pool.* First in, first out, down to the bytes. No wakeup is lost. Every accepted task is in one
place, its work and its collect are called at most once and in that order, under any interleaving
of timeouts and replacements. A slot's pointer never dangles and the pool stays manned. Stopping a
pool after any run in which threads could be created and collects returned 0 drains it, with timers
going off meanwhile, and leaves one sleeping thread for every replacement. The pool runs, and takes
dispatches, exactly between a start and the end of a stop, and what it accepted, how many workers and
markers and timers there were, and which workers have ended is read off the steps. What a timer does is
stated exactly: on a slot shared with a worker that was given up on, the code can fail to discard a
timed-out task, can discard another one that is in time, and a worker that is done can remove the timer
of one that is stuck, which then has none. The three runs are given, with the exact condition on the
steps in between.

## Files

| file | subject |
|---|---|
| `JsmnLexer`, `JsmnMachine` | lexical rules; one turn and one call of the tokenizer, on values |
| `JsmnParser` | the parser object, with the loops and the token array of the source |
| `JsmnInvariants`, `JsmnStack`, `JsmnBalance` | any input: invariants, stack refinement, acceptance |
| `JsmnGrammar`, `JsmnTexts`, `JsmnErrors` | any input: strings, primitives and texts in the characters of RFC 8259; what the errors mean |
| `JsmnLinks` | any input: the build with parent links against the default one |
| `JsmnResume`, `JsmnCounting` | going on after a stop; counting mode |
| `JsonText`, `JsmnRoundTrip`, `JsmnAgreement` | JSON trees and their text; the round trip; the two builds in step |
| `JsonDump`, `JsonStream`, `SamplerRequest` | users of the tokens |
| `RingBuffer`, `WaitQueue` | the buffer in memory; its lock and condition variable |
| `Executor`, `ExecutorSafety` | the pool's steps; safety |
| `ExecutorAccounts` | what a run's labels say about its end |
| `ExecutorTimers`, `ExecutorSharedSlot`, `ExecutorSharedRuns` | timers; the exact conditions on shared slots; the three runs that fail |
| `ExecutorDrain`, `ExecutorStop` | stopping; stopping at the end of a run |
| `Options` | a value that may be missing |

The objects of `jsmn.c` and `ringbuffer.c` are classes whose methods are tied to functions on values
(`Run`, `Turn`, `Contents`); the theorems are about those functions.

## Readings of the source

* A text is the characters between `js` and `js + len`; reading also stops at the first NUL. Integers
  are unbounded, so positions and counts are assumed to fit their C types.
* A token records its parent in both builds. The default build has no such field; here it writes it
  and never reads it. What lies before the token array, which the comma case may look at, is a
  parameter (`junk`); in the default build it is proved not to matter. With parent links a link that
  does not lead to an earlier token ends the walk.
* `jsmn_parse` returns the tokens made by that call, not by the parser so far; its documentation
  does not make the difference.
* `sampler_parse_request` looks for the key `get-stats`; the tests of the repository send `stats`. The
  code is followed. Names are compared with `strncmp` up to the token's length, so prefixes match.
* `ringbuffer_clear` does not reset `used`. It is kept as it is, with the exact condition under which
  it keeps the buffer consistent.
* Pool steps are the code between lock operations, plus: the check and mark of the timer callback,
  the wiping of a slot by `worker_init`, and the return of a work function together with the clearing
  of the slot's pointer, each as one step. Callbacks run one at a time and each timer goes off at most
  once. `scheduler_del` may or may not find its timer. A signal wakes at least one sleeper, and sleepers
  may wake spuriously.

## Model

| member | source | states |
|---|---|---|
| JsmnParser.Parser.constructor | contrib/jsmn/jsmn.c:306-310 | a new parser stands at 0, has no tokens and no superior token |
| JsmnParser.Parser.AddToken | contrib/jsmn/jsmn.c:8-32 | fails exactly when the array is full and then changes nothing; otherwise appends the token and adds one to the size of its superior, and touches nothing behind |
| JsmnParser.Parser.ScanPrimitive | contrib/jsmn/jsmn.c:42-58 | finds the end of the primitive or leaves the position where it was |
| JsmnParser.Parser.ParsePrimitive | contrib/jsmn/jsmn.c:37-81 | does to parser and tokens what the machine's turn does, and restores the position on every error |
| JsmnParser.Parser.SkipEscape | contrib/jsmn/jsmn.c:115-143 | accepts exactly the allowed escapes and ends on the last character of one |
| JsmnParser.Parser.ScanString | contrib/jsmn/jsmn.c:90-147 | finds the closing quote, tells a bad escape from a missing end, and restores the position on both |
| JsmnParser.Parser.ParseString | contrib/jsmn/jsmn.c:86-148 | does to parser and tokens what the machine's turn does |
| JsmnParser.Parser.CloseByScan | contrib/jsmn/jsmn.c:208-227 | the two backward loops close the innermost open token and make the next one out superior, or report the mismatch with nothing changed |
| JsmnParser.Parser.CloseByLinks | contrib/jsmn/jsmn.c:189-206 | the walk up the parents closes the nearest open ancestor and makes its parent superior |
| JsmnParser.Parser.Comma | contrib/jsmn/jsmn.c:242-258 | the superior token after a comma, in either build |
| JsmnParser.Parser.Dispatch | contrib/jsmn/jsmn.c:164-289 | one turn of the loop, whatever the character |
| JsmnParser.Parser.Parse | contrib/jsmn/jsmn.c:153-300 | reply, parser and tokens are those of a call of the machine from the old state; tokens behind `toknext` are untouched |
| JsmnParser.Parser.CountOnly | contrib/jsmn/jsmn.c:160-299 | the call without tokens: its reply and where it leaves the parser |
| JsonText.ClassesAgree | contrib/jsmn/jsmn.c:46-57 | white space, escapes, hexadecimal digits, printable characters and the ends of a primitive are the listed characters |
| JsonText.BodyLexes | contrib/jsmn/jsmn.c:95-145 | a string body of legal characters and escapes, followed by a quote, lexes up to that quote |
| JsonText.WordLexes | contrib/jsmn/jsmn.c:44-58 | a word followed by a delimiter or the end lexes as one primitive |
| JsmnMachine.RunCounts | contrib/jsmn/jsmn.c:158-299 | a successful call returns the number of tokens it made, and nothing else depends on the count |
| JsmnInvariants.TurnKeepsInv | contrib/jsmn/jsmn.c:160-290 | for any text, a turn keeps: starts increase, closed tokens are nested or disjoint, only containers are open, sizes count children, and no superior token means nothing is open |
| JsmnInvariants.RunKeepsInv | contrib/jsmn/jsmn.c:153-300 | so does a whole call, from any such state and however it ends |
| JsmnInvariants.SizeStaysInside | contrib/jsmn/jsmn.c:174-182 | the size of token k is at most toknext - 1 - k |
| JsmnInvariants.ScansAgree | contrib/jsmn/jsmn.c:249-256 | the comma's search, which tests the type first, finds what the bracket's search finds |
| JsmnStack.ScanFindsTop | contrib/jsmn/jsmn.c:208-218 | a backward scan from any index finds the top of the stack of open tokens below it |
| JsmnStack.StackAfterClose | contrib/jsmn/jsmn.c:214-227 | closing pops that stack and the second scan finds the new top |
| JsmnStack.RunRefinesStack | contrib/jsmn/jsmn.c:184-257 | for every text and state, the tokenizer equals the one that pushes and pops an explicit stack |
| JsmnStack.JunkIsIrrelevant | contrib/jsmn/jsmn.c:243-245 | what the lookup at index -1 yields never changes a result |
| JsmnGrammar.StringsAreExact | contrib/jsmn/jsmn.c:95-147 | for every text, the string scan ends exactly at the quote of a legal string, and reports a bad character iff behind a legal body comes a backslash that begins no escape of RFC 8259, a wrong digit of `\u` included |
| JsmnGrammar.PrimitivesAreExact | contrib/jsmn/jsmn.c:44-58 | for every text, the primitive scan ends exactly at the first white space, `:`, `,`, `]`, `}` or end, and fails iff a character outside 33 to 126 comes before |
| JsmnTexts.SpelledLexes | contrib/jsmn/jsmn.c:160-290 | a text spelled by legal lexemes is read as one event each, with their brackets and values |
| JsmnTexts.LexesSpelled | contrib/jsmn/jsmn.c:160-290 | a text that can be read is spelled by legal lexemes |
| JsmnTexts.AcceptanceIsSpelling | contrib/jsmn/jsmn.c:153-300 | a fresh parse succeeds iff the text is spelled by legal lexemes whose brackets are balanced and whose values are no more than the tokens |
| JsmnErrors.InvalStays | contrib/jsmn/jsmn.c:132-143 | an invalid text stays invalid with more text and more tokens, in either build |
| JsmnErrors.PartCompletes | contrib/jsmn/jsmn.c:146-147 | a partial text can be brought to its end, with at most one token more |
| JsmnErrors.ErrorsAreExact | contrib/jsmn/jsmn.c:153-300 | a fresh parse that did not run out answers INVAL iff no text that begins with this one is accepted, and PART iff this one is not but a longer one is |
| JsmnErrors.CountErrorsAreExact | contrib/jsmn/jsmn.c:160-299 | the same for the counting mode, which has no other failure |
| JsmnErrors.CountSuperExactly | contrib/jsmn/jsmn.c:239-241 | a count clears the superior token iff there is a colon outside strings |
| JsmnLinks.RunInStep | contrib/jsmn/jsmn.c:188-257 | from any states in step, the build with links comes to the state in which the default build ends |
| JsmnLinks.BuildsInStep | contrib/jsmn/jsmn.c:188-257 | on every text the build with links gives the reply of the default build and tokens of the same kinds and places, except behind a closing bracket with nothing open |
| JsmnBalance.BalancedIsMatched | contrib/jsmn/jsmn.c:184-229 | the grammar of balanced words and matching with a stack accept the same words |
| JsmnBalance.RunAccepts | contrib/jsmn/jsmn.c:160-299 | from any state: success iff the rest lexes, closes what is open and asks for no more tokens than are left |
| JsmnBalance.AcceptanceIsBalance | contrib/jsmn/jsmn.c:153-300 | a fresh parse succeeds iff the text lexes, its brackets are a balanced type-matched word and there is a token for every value |
| JsmnResume.StrExtends | contrib/jsmn/jsmn.c:95-147 | a string that ends or breaks in a prefix does so in the whole text, cuts inside escapes included |
| JsmnResume.PrimExtends | contrib/jsmn/jsmn.c:44-58 | a primitive ends the same in the whole text unless it touches the cut and goes on |
| JsmnResume.ResumeIsSeamless | contrib/jsmn/jsmn.c:160-299 | whatever a call on a prefix with fewer tokens answered, going on with the whole text and more tokens equals one call, counts included |
| JsmnResume.SessionIsOneCall | contrib/jsmn/jsmn.c:153-300 | any session of calls with growing text and tokens ends as one call on the last text with the last array |
| JsmnResume.CutShows | contrib/jsmn/jsmn.c:65-80 | stopping inside a primitive leaves a token that the parse of the whole text does not have |
| JsmnResume.ChunksAgreeExactly | contrib/jsmn/jsmn.c:153-300 | handing a text over in two pieces gives the state of one parse iff the cut is not inside a primitive |
| JsmnResume.CutMatters | contrib/jsmn/jsmn.c:65-80 | a text where it is: `12` handed over as `1` and then the rest |
| JsmnResume.RunKeepsClosed | contrib/jsmn/jsmn.c:208-218 | no call changes the end of a closed token |
| JsmnCounting.CountFollowsRun | contrib/jsmn/jsmn.c:160-299 | a call with tokens that succeeds returns what the call without returns, and cannot run out when that many fit |
| JsmnCounting.CountingIsExact | contrib/jsmn/jsmn.c:160-299 | the counting pass returns exactly the tokens needed: that many never run out, fewer never succeed |
| JsmnRoundTrip.RunClose | contrib/jsmn/jsmn.c:184-229 | in both builds the bracket closes its own container, past everything inside it |
| JsmnRoundTrip.CommaAfterMember | contrib/jsmn/jsmn.c:242-258 | after a member's value the builds disagree on the superior token, and the comma brings both back to the object |
| JsmnRoundTrip.RunValue | contrib/jsmn/jsmn.c:160-290 | on the text of a value, anywhere in a text and from any state with room, a call goes on as if from the state with the value's listing appended |
| JsmnRoundTrip.RunItems | contrib/jsmn/jsmn.c:160-290 | the same for the elements of an array |
| JsmnRoundTrip.RunMembers | contrib/jsmn/jsmn.c:160-290 | the same for the members of an object |
| JsmnRoundTrip.RoundTrip | contrib/jsmn/jsmn.c:153-300 | for every JSON tree and layout, a parse returns the node count and fills the preorder listing with type, span, size and parent |
| JsmnAgreement.ShortValue | contrib/jsmn/jsmn.c:188-257 | with too few tokens for a value, from any state, the two builds stop with the same reply in the same state |
| JsmnAgreement.BuildsAgree | contrib/jsmn/jsmn.c:188-257 | on every JSON text the two builds given the same number of tokens, or each enough of them, return the same reply, state and tokens |
| JsmnAgreement.BuildsDiffer | contrib/jsmn/jsmn.c:202-220 | behind a JSON text a closing bracket is invalid in the default build and passed over by the other |
| JsonDump.DumpTokens | contrib/jsmn/example/jsondump.c:12-46 | the recursive walk with its loops, on any tokens, reading outside them included |
| JsonDump.DumpValue | contrib/jsmn/example/jsondump.c:12-46 | on the listing of a value the walk sees each token once, in order, returns their number and shows the value |
| JsonDump.DumpLeaves | contrib/jsmn/example/jsondump.c:14-42 | `count` limits the walk: of the leaves in a container no more than are left of it are looked at |
| JsonDump.DumpShowsTheTree | contrib/jsmn/example/jsondump.c:106-107 | print, parse and dump show the tree that was printed |
| JsonDump.TextHasOneTree | contrib/jsmn/example/jsondump.c:12-46 | a text is the text of one tree only, layout apart |
| JsmnResume.TokensBehind | contrib/jsmn/jsmn.c:11-14 | tokens never outnumber characters read, and running out means the array is full |
| JsmnResume.MoreIsTheSame | contrib/jsmn/jsmn.c:11-14 | a call that did not run out goes the same way with a larger array |
| JsmnResume.RunsOutExactly | contrib/jsmn/jsmn.c:11-14 | a call runs out iff a call that does not would make more tokens than there are |
| JsonStream.ParseGrowing | contrib/jsmn/example/jsondump.c:93-104 | the doubling loop ends with the first array that is large enough, and parser and tokens are those of one call with it |
| JsonStream.NextChunk | contrib/jsmn/example/jsondump.c:69-108 | after one parse of the earlier chunks, a call on all the text so far is one parse of it |
| JsonStream.Feed | contrib/jsmn/example/jsondump.c:69-109 | chunk by chunk, tokens never run out; with no chunk ending inside a primitive, the last reply and the tokens are those of one parse, what is shown is their tree, and the end of the input is welcome iff some part of the text up to a chunk was accepted |
| JsonStream.StreamShowsTheTree | contrib/jsmn/example/jsondump.c:93-108 | however the text of a tree reached the loop, it shows that tree |
| SamplerRequest.ParsedIsSound | src/sampler.c:97-111 | after any successful parse every span lies in the text and every size in the array |
| SamplerRequest.ParseStats | src/sampler.c:141-156 | the loop over the listed statistics, with both of its errors |
| SamplerRequest.WalkTokens | src/sampler.c:113-164 | the index-skipping loop ends and stays below the count, whatever the text |
| SamplerRequest.ParseRequest | src/sampler.c:86-165 | the whole function, on every text; -1 and an empty request unless the text lexes, balances, fits in 32 tokens and its first token is an object |
| SamplerRequest.RefusedUnlessObject | src/sampler.c:97-113 | exactly those texts are refused before the walk, and every other is walked over from its second token |
| SamplerRequest.IdentIsCut | src/sampler.c:115-130 | an identifier of up to 36 characters reaches `uuid_parse` whole, one of 37 without its last, a longer one is refused |
| SamplerRequest.StrnIsPrefix | src/sampler.c:69-70 | the comparison holds exactly for prefixes |
| SamplerRequest.NamesAreDistinct | src/sampler.c:41-52 | a full name selects its own flag |
| SamplerRequest.StatOfIsFirst | src/sampler.c:41-60 | a text that compares equal to several names is the first of them, in the order of the code |
| SamplerRequest.StatOfAcceptsPrefixes | src/sampler.c:41-60 | exactly the prefixes of the six names are accepted, and from two characters on each selects one name |
| SamplerRequest.StatsOfList | src/sampler.c:141-156 | the loop succeeds iff every element is a string that names a statistic, and adds exactly those |
| SamplerRequest.ValueIsCalm | src/sampler.c:113-114 | the walk does nothing at any token of a value iff no string in it, keys included, compares equal to a name, the last token of all apart |
| SamplerRequest.StrayMember | src/sampler.c:158-162 | a member with another key is stepped over without effect iff its value is such; otherwise the walk comes to a string in it and takes it for a key |
| SamplerRequest.WalkMembers | src/sampler.c:113-164 | over members in any order and number, those with other keys calm: accepted iff each `req-id` and `get-stats` is well formed, with exactly the flags and the identifier they give |
| SamplerRequest.RequestIsUnderstood | src/sampler.c:86-165 | the same from the text, in every layout that fits in 32 tokens |
| SamplerRequest.SwallowsNextKey | src/sampler.c:114-131 | a value `req-id` under another key makes the next key the identifier, and that key's value is walked over |
| SamplerRequest.RequestIsLost | src/sampler.c:113-164 | `{"x":"req-id","get-stats":["cpu-total"]}` is accepted with no flag set |
| SamplerRequest.StatsIsAccepted | src/sampler.c:158-164 | `{ "stats": 1 }` is accepted and asks for nothing |
| RingBuffer.RingBuffer.constructor | lib/ringbuffer.c:70-92 | a new buffer is consistent and empty |
| RingBuffer.RingBuffer.Clear | lib/ringbuffer.c:60-68 | keeps the buffer consistent iff it was empty or full |
| RingBuffer.RingBuffer.IsFull | lib/ringbuffer.c:100-104 | tells whether as many elements are queued as fit |
| RingBuffer.RingBuffer.IsEmpty | lib/ringbuffer.c:116-120 | tells whether none is queued |
| RingBuffer.RingBuffer.WriteItem | lib/ringbuffer.c:132-137 | writes the bytes of one slot and of no other |
| RingBuffer.RingBuffer.Put | lib/ringbuffer.c:139-160 | appends the element, or returns -1 when full; no live element's bytes change; signals iff somebody waits |
| RingBuffer.RingBuffer.BeginGet | lib/ringbuffer.c:165-167 | one more waiter |
| RingBuffer.RingBuffer.FinishGet | lib/ringbuffer.c:171-179 | takes the oldest element |
| RingBuffer.Serve | lib/ringbuffer.c:139-180 | over any sequence of operations, what was accepted is what was taken and then what is left, in order, and `end` is `(start + used) % size`; a put is accepted iff there is room and a get succeeds iff there is something, as counted from the operations |
| WaitQueue.StepKeepsInv | lib/ringbuffer.c:143-178 | every section that holds the lock keeps order, the count of waiters and enough woken getters |
| WaitQueue.NoLostWakeup | lib/ringbuffer.c:145-173 | in every run with any number of threads and spurious wakeups, an element is never queued while all getters inside are asleep, and taken then queued is accepted |
| ExecutorSafety.NextKeepsPointers | lib/executor.c:113-115 | every step keeps: a slot's pointer is null or names a task inside its work call |
| ExecutorSafety.NextKeepsFlags | lib/executor.c:113-125 | the discarded flag does not change between the decision on the timer and the collect |
| ExecutorSafety.NextConserves | lib/executor.c:90-130 | every step keeps: accepted is queued, held or collected, and worked is held or collected |
| ExecutorSafety.NextKeepsManned | lib/executor.c:274-287 | every step keeps a thread free of timed-out work for every slot, while threads can be created and collects return 0 |
| ExecutorSafety.NextKeepsInv | lib/executor.c:77-287 | every step of caller, worker or scheduler keeps all of these |
| ExecutorSafety.ExactlyOnce | lib/executor.c:90-130 | in every run a task is in one place, taken in the order accepted, worked at most once, and collected at most once and only after |
| ExecutorSafety.SlotsAreSafe | lib/executor.c:77-87 | in every run pointers and flags are safe, the pool is manned and a replacement finds its slot |
| ExecutorAccounts.RunningExactly | lib/executor.c:203-245 | in every run the pool is running iff a start has not been followed by the end of a stop |
| ExecutorAccounts.DispatchExactly | lib/executor.c:261-271 | a dispatch is taken iff the pool is so started and its queue is not full; a start is refused while it is |
| ExecutorAccounts.StoppedRefuses | lib/executor.c:245-263 | after the end of a stop no dispatch is taken before the next start |
| ExecutorAccounts.MarkerExactly | lib/executor.c:219-227 | a marker is queued iff there is room and lost iff there is none |
| ExecutorAccounts.AcceptedExactly | lib/executor.c:265-271 | the queue has accepted exactly the dispatched tasks and the markers, in order, each with the timeout asked for |
| ExecutorAccounts.OneForEverySlot | lib/executor.c:211-237 | every start tries one worker for every slot and every stop one marker, and is done with it before it ends |
| ExecutorAccounts.ReplacedOnce | lib/executor.c:77-87 | every timer that goes off is followed by one replacement before the next; a pending timer can go off whenever none is in between, running or not |
| ExecutorAccounts.WorkerEndsExactly | lib/executor.c:140-146 | in every run a worker has ended iff one of its collects returned something other than 0 |
| ExecutorAccounts.ArmedOnce | lib/executor.c:103-114 | in every run the scheduler was asked for a timer exactly once for each task with a timeout, before its work, and for no other |
| ExecutorTimers.ReachedKeepsTimers | lib/executor.c:103-110 | in every run, where a worker's timer id and task pointer are kept, phase by phase, and that no id is stored twice |
| ExecutorTimers.SlotWrites | lib/executor.c:104-153 | which steps write to `current` and `sched_id` of a slot, and what; every other step leaves them |
| ExecutorTimers.TimeoutDiscards | lib/executor.c:77-87 | a timer that goes off on the task it was armed for counts against its owner, and discards that task if the owner is at work and its slot was never shared |
| ExecutorTimers.DoneInTimeRemovesTimer | lib/executor.c:120-124 | a task done in time leaves no timer of its own behind, if the slot was never shared |
| ExecutorSharedSlot.MarkDiscards | lib/executor.c:77-87 | a timer that goes off, whoever armed it, discards the task its slot names, which is inside its work call, and no other |
| ExecutorSharedSlot.DecideRemoves | lib/executor.c:120-124 | a worker removes the timer whose id its slot holds, whoever armed it, and no other, iff its task asked for one, was not discarded and the scheduler finds it |
| ExecutorSharedSlot.CurrentStays | lib/executor.c:113-115 | over any steps, the slot still names a task iff it did and no thread on it began or finished a task and nobody was put on it |
| ExecutorSharedSlot.IdStays | lib/executor.c:103-107 | over any steps, the slot still holds a timer's id iff it did and no thread on it stored one and nobody was put on it |
| ExecutorSharedSlot.DiscardsExactly | lib/executor.c:77-115 | from any state of any run, after `current = &task` and any steps up to the next one, any timer that goes off discards the task, unless that is done, iff it was armed on that slot and nobody wrote to `current` of the slot since |
| ExecutorSharedSlot.RemovesExactly | lib/executor.c:103-124 | from any state of any run, after a worker stored its timer's id and any steps, a worker done in time removes that timer iff it is on the same slot and nobody wrote to `sched_id` of that slot since |
| ExecutorSharedRuns.DiscardIsMissed | lib/executor.c:82-115 | a run with one slot after which a worker's own timer, going off during its work, does not discard its task |
| ExecutorSharedRuns.WrongTaskIsDiscarded | lib/executor.c:82-84 | the run goes on, and that timer discards the task of the other worker, which is in time, and not its owner's |
| ExecutorSharedRuns.TimerIsLost | lib/executor.c:120-124 | the run goes on, and a worker done in time leaves its own timer and removes the one of a worker at work, which has none left |
| ExecutorDrain.DrainKeeps | lib/executor.c:219-247 | while stopping, threads that will ask again exceed the markers by a number that grows only with replacements |
| ExecutorDrain.DrainShrinks | lib/executor.c:132-146 | every step of a stopping pool but a spurious wakeup, timers and replacements included, lowers a measure |
| ExecutorDrain.DrainIsFinite | lib/executor.c:132-146 | so a run is bounded by the measure and the number of spurious wakeups |
| ExecutorDrain.DrainGoesOn | lib/ringbuffer.c:145-173 | a stopping pool that is not drained can take a step of a worker or of the caller: no deadlock, no lost wakeup |
| ExecutorDrain.StopBegins | lib/executor.c:229-237 | a pool with no marker queued, no worker ended and a thread for every slot starts such a run when stopped |
| ExecutorDrain.StopDrains | lib/executor.c:229-247 | stopping such a pool ends with an empty queue and every accepted task worked and collected exactly once; all workers have exited iff there were no more threads than slots and none was replaced since |
| ExecutorStop.RunIsStoppable | lib/executor.c:197-237 | every run without a stop in which threads could be created and collects returned 0, once started, leads to such a pool, with one thread for every slot and one more for every replacement |
| ExecutorStop.RunDrains | lib/executor.c:197-247 | such a run, then the stop, then any drain: finite, every task worked and collected exactly once, and all workers have exited iff none was replaced, before or meanwhile |

## Left out

- `JSMN_STRICT` mode: not built by the repository.
- BuildsInStep: assumes that what precedes the token array reads as a container or has no parent; otherwise a comma with no superior token sends the parent-link build wherever that memory says.
- C integer widths and wrap-around: positions, counts and sizes are unbounded.
- Indentation and punctuation printed by `dump`: its output is kept as a tree.
- TimeoutDiscards: does not promise a discard on a slot shared after a replacement, where it may fail; DiscardsExactly and DiscardIsMissed say when.
- DoneInTimeRemovesTimer: does not promise the removal on a shared slot, where another worker's timer may go instead; RemovesExactly and TimerIsLost say when.
- StopDrains: assumes no dispatch, no lost marker and no collect that ends a worker while stopping, and counts spurious wakeups instead of excluding them.
- RequestIsUnderstood: does not say what becomes of an object in which another key's value holds a string that compares equal to `req-id` or `get-stats`; StrayMember says how the walk goes astray there.
- WalkMembers: the same.
- CloseByLinks: a parent that is no earlier token ends the walk, where the source would index outside the array.
- `executor_dispatch` error codes, `worker_join`, `executor_free`, allocation failure and the dump hooks: easy members.
- The pool is modelled on values, one step at a time: in-place update of its structures between steps is not.
- `uuid_parse` and the libvirt flag values: a parameter and six tags.
- `lib/vminfo.c`, `lib/vminfo_parse.c`, `lib/vminfo_print.c`, `lib/scheduler.c`, `lib/threading.c`, and the rest of `src/`: record formatting, thin wrappers, I/O.
