# A verified model of the Spectral Cloud control plane

This project models the parts of the control plane that carry state and arithmetic worth
proving things about, and proves what they are for. It is plain Dafny; `dfyconfig.toml` takes
in every file.

| component | files |
|---|---|
| the agent's calculator | `MathSyntax`, `MathParsing`, `MathSpelling`, `MathSoundness`, `MathLaws` |
| the agent's summarizer | `Summary` |
| weighted round-robin dispatch and circuit breakers | `Circuit`, `Dispatch`, `Fairness`, `Modular` |
| job queue over the tenant store, crash recovery | `Ids`, `Store`, `Jobs`, `JobRecovery` |
| scheduler with concurrent runners | `Scheduler`, `SchedulerRuns`, `SchedulerManager`, `SchedulerStrays` |
| route selection, scoped and batch resolution | `Routing`, `Resolve`, `ResolveLaws` |
| hash-linked chain, tenant loading, repair and reload | `Chain`, `Tenant`, `TenantRuns` |
| event history ring | `Events` |
| mesh packets | `Mesh` |
| pipeline runs | `Pipelines` |
| missing values, shared by the above | `Options` |

How things are represented:

- An object whose methods update its fields is a class; each method is proved equal to a
  function of the old state, and the theorems are about those functions, over whole runs.
- A Go string is the sequence of its bytes, one `char` each, except that signatures in `Mesh`
  are sequences of 8-bit vectors. Time is an integer passed in, in nanoseconds unless named
  otherwise. Map iteration takes an arbitrary order.
- Number operations of the calculator, numeral conversion, hashes, keyed hashes, JSON,
  rounding, blank-trimming and word splitting are uninterpreted parameters, so the theorems hold for
  every choice of them.
- 64-bit counters, the 64-bit sum of a dispatch attempt, the slice bound of a resolution and
  the TTL of a job wrap around as they do in the program, or are listed below.

## Where the code does not do what one would expect

Each of these is proved, with the exact condition and an input at which it happens.

- A function of the calculator's table can be called if and only if its name is all letters, so
  `log2` and `log10` cannot: the name scanner stops at a digit, and an input in which a digit or
  point directly follows a letter, anywhere, is not accepted (`MathSoundness.CallableIff`,
  `MathSoundness.AcceptedIsUnglued`, `MathSoundness.Log2IsNotCallable`).
- In a run of the job queue no id is given out twice if and only if nothing is submitted after a
  restart at which the job numbered last was no longer in the store, having been pruned
  (`JobRecovery.GivenOutOnceIff`, `JobRecovery.RestartLowersIff`; a run that does it is
  `JobRecovery.PrunedIdIsReused`).
- The store has no bucket for an empty tenant name, so a restart keeps every job if and only if
  every job has a tenant (`JobRecovery.Recover`, `JobRecovery.DurableIff`; one is lost in
  `JobRecovery.TenantlessIsLost`).
- A refused schedule update leaves everything as it was if and only if it is refused for its name
  or the edits before the refusal change nothing (`Scheduler.RefusedUpdateIff`,
  `Scheduler.RefusedUpdateRenames`); a refused pipeline edit if and only if the name it asks for is
  none, empty or the present one (`Pipelines.RefusedEditIff`, `Pipelines.RefusedEditRenames`).
- Loading schedules over an id in use keeps runners and handles matched if and only if the entry
  replaced has no runner (`Scheduler.LoadOverExistingIff`); otherwise its runner goes stray. In
  every run with any loads a runner is stray if and only if the entry that had its handle was
  loaded over before, so no update, deletion or stop of everything ever ends it, and it goes on
  submitting (`SchedulerStrays.StrayForever`, `SchedulerStrays.StrayPosts`,
  `Scheduler.RunnersAfterLoad`; it happens in `SchedulerStrays.LoadOverActive`).
- Fairness survives the wrap of a group's 64-bit counter if and only if the total weight divides
  2^64 or there is one member (`Fairness.FairAcrossWrapIff`, `Fairness.ThreeAreUnfair`); a call
  tries every slot if and only if its attempts do not wrap or the total weight divides 2^64
  (`Fairness.EverySlotReachedIff`, `Fairness.MissedSlot`).
- A half-open breaker admits every request, although the comment at pkg/circuit/circuit.go:17
  promises one (`Circuit.HalfOpenAdmitsAll`): between the first probe and the call that settles
  it, at most one request passes if and only if only one is made (`Circuit.SingleProbeIff`,
  `Circuit.SecondProbePasses`).
- Resolving slices out of range if and only if a valid request asks for the largest possible
  number of alternatives and the scope that answers has more than one live match
  (`Resolve.CrashIff`, `Resolve.CrashHappens`).
- The two chain validators stop at the same block if and only if no block up to the first bad one
  has the right hash, the wrong link and a number only one of them looks at
  (`Chain.ValidatorsAgreeIff`, `Chain.ShapeIsNeeded`).
- Loading a tenant leaves memory and store with the same chain if and only if nothing was stored
  or the first stored block is kept; else memory has a genesis block that the store does not
  (`Tenant.InSyncIff`, `Tenant.BadFirstBlock`).

## Model

| member | source | states |
|---|---|---|
| MathParsing.EvalMath | cmd/spectral-agent/main.go:1719-1733 | the cursor-moving evaluator returns, on every input, what the functional evaluator does: same value or same error |
| MathParsing.Parser.SkipSpaces | cmd/spectral-agent/main.go:1735-1739 | the cursor ends on the first character that is not a space, or at the end |
| MathParsing.Parser.ParseAddSub | cmd/spectral-agent/main.go:1745-1769 | left-associative sums: value, error and final cursor are those of the specification; the cursor never goes back or past the end; terminates on remaining input, then level |
| MathParsing.Parser.AddSubTurn | cmd/spectral-agent/main.go:1750-1767 | one turn of its loop: an operator and an operand, or nothing when none follows |
| MathParsing.Parser.ParseMulDiv | cmd/spectral-agent/main.go:1771-1803 | the same for products, quotients with the zero check, and remainders |
| MathParsing.Parser.MulDivTurn | cmd/spectral-agent/main.go:1776-1801 | one turn of its loop |
| MathParsing.Parser.ParsePow | cmd/spectral-agent/main.go:1805-1820 | the same for a power with at most one exponent |
| MathParsing.Parser.ParseUnary | cmd/spectral-agent/main.go:1822-1833 | the same for one optional sign, which binds tighter than a power |
| MathParsing.Parser.ParseAtom | cmd/spectral-agent/main.go:1845-1909 | the same for calls, constants, parentheses and numerals |
| MathParsing.Parser.ParseWord | cmd/spectral-agent/main.go:1851-1883 | its branch for calls and constants, with the order in which a missing parenthesis and an unknown function are reported |
| MathParsing.Parser.ParseNumber | cmd/spectral-agent/main.go:1897-1909 | its branch for numerals, which may carry a second sign |
| MathSpelling.EveryTreeEvaluates | cmd/spectral-agent/main.go:1719-1909 | completeness: the text of every derivation of the grammar, with arbitrary gaps and trailing spaces, evaluates to the value or the first error of the expression it stands for |
| MathSpelling.PrintThenEvaluate | cmd/spectral-agent/main.go:1745-1909 | round trip: printing any printable expression with minimal parentheses and evaluating it gives its value or its error, for any arithmetic |
| MathSyntax.LayoutIsFaithful | cmd/spectral-agent/main.go:1745-1909 | the printer's tree derives from the grammar at every level and reads back as the expression |
| MathSyntax.LayoutIsMinimal | cmd/spectral-agent/main.go:1745-1909 | no derivation of the same expression has fewer parentheses than the printer's |
| MathSoundness.AcceptedIsSpelled | cmd/spectral-agent/main.go:1719-1909 | soundness: an accepted input is, as a whole, the text of a derivation whose value is the one returned |
| MathSoundness.AcceptsExactly | cmd/spectral-agent/main.go:1719-1909 | an input is accepted with value v if and only if it spells some expression worth v |
| MathSoundness.ReadingsAgree | cmd/spectral-agent/main.go:1745-1909 | two derivations of one text have the same meaning |
| MathSoundness.TextIsUnglued | cmd/spectral-agent/main.go:1851-1908 | nowhere in the text of a derivation of the grammar does a digit or point directly follow a letter |
| MathSoundness.AcceptedIsUnglued | cmd/spectral-agent/main.go:1851-1856 | nor does it in an accepted input |
| MathSoundness.CallableIff | cmd/spectral-agent/main.go:1836-1873 | a function of the table is applied by some accepted text if and only if its name is all letters |
| MathSoundness.CutWordIsUnknown | cmd/spectral-agent/main.go:1851-1883 | at the start of an input, after any spaces, a word of letters followed by anything but a letter, a space or an opening parenthesis is reported as an unknown identifier unless it is a constant |
| MathSoundness.Log2IsNotCallable | cmd/spectral-agent/main.go:1837-1855 | of the table all but log2 and log10 can be called, and no input in which either occurs, anywhere, is accepted |
| MathLaws.SumLaw | cmd/spectral-agent/main.go:1745-1769 | for all texts of a sum s and a product t: s+t evaluates to the sum of their values and s-t to the left one less the right one, or to the first error, left before right |
| MathLaws.ProductLaw | cmd/spectral-agent/main.go:1771-1803 | for all texts of a product s and a power t: s*t, s/t and s%t evaluate to product, quotient and remainder of left by right; division by zero exactly when the right value is zero |
| MathLaws.PowerLaw | cmd/spectral-agent/main.go:1805-1820 | for all texts of signed atoms: s^t evaluates to the left one raised to the right one |
| MathLaws.SignLaw | cmd/spectral-agent/main.go:1822-1833 | before an atom - negates and + does nothing |
| MathLaws.SecondSignLaw | cmd/spectral-agent/main.go:1896-1908 | a second sign belongs to the numeral and is converted with it |
| MathLaws.GroupLaw | cmd/spectral-agent/main.go:1884-1895 | parentheses change nothing |
| MathLaws.CallLaw | cmd/spectral-agent/main.go:1837-1873 | f(s) evaluates to f applied to the value of s for the ten names that can be called, and is an unknown function for every other word of letters; the argument's error comes first |
| MathLaws.AtomLaw | cmd/spectral-agent/main.go:1874-1909 | pi and e are the constants, other words unknown identifiers, and a word of digits and points what the library converts it to, or an error with it |
| MathLaws.SpaceLaw | cmd/spectral-agent/main.go:1719-1739 | spaces around a numeral change nothing |
| MathLaws.OperandsCompose | cmd/spectral-agent/main.go:1745-1909 | numerals are operands everywhere, and what the laws put together is an operand at the level of its operator |
| Summary.CountWords | cmd/spectral-agent/main.go:1644-1653 | the table holds, for every word longer than three letters, its number of occurrences over all sentences |
| Summary.ScoreSentence | cmd/spectral-agent/main.go:1661-1668 | a sentence's score is the sum of its words' frequencies |
| Summary.ScoreInWords | cmd/spectral-agent/main.go:1649-1666 | a word of four or more letters weighs as often as it occurs in the text, a shorter one nothing, and a sentence is the sum of its words |
| Summary.SortByScore | cmd/spectral-agent/main.go:1669-1676 | the first exchange sort leaves a permutation in descending order of score |
| Summary.BringBest | cmd/spectral-agent/main.go:1671-1675 | its inner loop brings a best of the remaining entries to the front and permutes |
| Summary.SortPrefixByIndex | cmd/spectral-agent/main.go:1677-1685 | the second sorts the first n places by original position, as a permutation of those places, and leaves the rest alone |
| Summary.BringFirst | cmd/spectral-agent/main.go:1680-1684 | its inner loop brings the earliest of the remaining places to the front, within the first n |
| Summary.PickTop | cmd/spectral-agent/main.go:1669-1690 | together they select n entries in strictly increasing original order such that none left out outscores one taken |
| Summary.SortedTopIsBest | cmd/spectral-agent/main.go:1669-1685 | any two such sorts, one after the other, give a best selection in order |
| Summary.Summarize | cmd/spectral-agent/main.go:1641-1688 | with more than n sentences, exactly n of them, distinct, in order, best by word frequency; otherwise all of them |
| Summary.SplitSentences | cmd/spectral-agent/main.go:1693-1711 | the loop yields exactly those pieces, trimmed, without the blank ones |
| Summary.CutIsExact | cmd/spectral-agent/main.go:1693-1711 | the pieces a text is cut into add up to it, and the cuts are behind the ends of sentences, all of them and no other place |
| Summary.JoinAll | cmd/spectral-agent/main.go:1686-1690 | the parts trimmed and joined by spaces |
| Summary.ExtractiveSummarize | cmd/spectral-agent/main.go:1639-1691 | from text to text: a text of few sentences is returned as it is, else the best of its sentences in order, trimmed and joined by spaces |
| Circuit.Manager.constructor | pkg/circuit/circuit.go:41-54 | thresholds and timeouts that are not positive are replaced by 5 and 30 seconds |
| Circuit.Manager.Fetch | pkg/circuit/circuit.go:56-70 | a breaker asked for exists afterwards, closed and with the defaults if it is new |
| Circuit.Manager.RecordSuccess | pkg/circuit/circuit.go:72-84 | the whole new table of breakers after a success |
| Circuit.Manager.RecordFailure | pkg/circuit/circuit.go:86-104 | the whole new table after a failure, and the state returned |
| Circuit.Manager.Allow | pkg/circuit/circuit.go:106-125 | the answer and the whole new table, including the move to half open |
| Circuit.Manager.Reset | pkg/circuit/circuit.go:127-135 | the whole new table after a reset |
| Circuit.Manager.Delete | pkg/circuit/circuit.go:168-173 | the breaker is gone, the others are unchanged |
| Circuit.Manager.Perform | pkg/circuit/circuit.go:56-173 | any one call does to the table what the history theorems take it to do |
| Circuit.Manager.PerformAll | pkg/circuit/circuit.go:56-173 | and so does any sequence of calls |
| Circuit.StateIsHistory | pkg/circuit/circuit.go:56-135 | in every run the failure and success counters and the time of the last failure are those of the history since the last success, reset or deletion; closed implies fewer failures than the threshold; the opening time is missing if and only if closed |
| Circuit.TransitionsExactly | pkg/circuit/circuit.go:74-135 | both directions, in terms of the history: what trips a breaker, what half-opens it, what closes it, and that nothing else does |
| Circuit.AdmittedExactlyAfterTimeout | pkg/circuit/circuit.go:108-125 | after a trip, with no reset, deletion or admission of that agent since, a request is admitted if and only if the timeout has run out, whatever else was called and when |
| Circuit.RefusedWithinTimeout | pkg/circuit/circuit.go:108-125 | on a clock that does not go back, every request within the timeout of a trip is refused unless the breaker was reset or deleted |
| Circuit.StaysHalfOpen | pkg/circuit/circuit.go:108-125 | only a success, a failure, a reset or a deletion of that agent ends the half-open state |
| Circuit.HalfOpenAdmitsAll | pkg/circuit/circuit.go:121-122 | while half open, every request passes, at any time and however many came before, and the breaker stays half open |
| Circuit.SingleProbeIff | pkg/circuit/circuit.go:108-125 | from the request that half-opens a breaker until a call settles it, at most one request passes if and only if only one is made |
| Circuit.SecondProbePasses | pkg/circuit/circuit.go:108-125 | one failure and two requests after the timeout: both pass |
| Dispatch.Manager.Create | pkg/agentgroup/agentgroup.go:154-173 | a named group comes in empty under the next 64-bit number with position 0; until the number wraps around no group has it; an empty name changes nothing |
| Dispatch.Manager.AddMemberWithWeight | pkg/agentgroup/agentgroup.go:240-260 | appended if absent, unchanged if present, refused for a weight that is not positive or another tenant's group; members stay distinct |
| Dispatch.Manager.UpdateMemberWeight | pkg/agentgroup/agentgroup.go:262-282 | a bad weight is an error whoever is named; else exactly the named member's weight changes, and found if and only if there is one |
| Dispatch.Manager.RemoveMember | pkg/agentgroup/agentgroup.go:284-307 | the others remain in order, and success if and only if the member was there |
| Dispatch.TotalWeight | pkg/agentgroup/agentgroup.go:324-327 | the number of slots, which OwnerInWeights gives as the sum of the weights |
| Dispatch.FindOwner | pkg/agentgroup/agentgroup.go:334-343 | the walk over running sums finds the owner of a slot, which OwnerInWeights gives in the members' weights |
| Dispatch.Scan | pkg/agentgroup/agentgroup.go:331-351 | whatever others do to the breakers before each attempt: the answer is the owner of the first attempt that is named and admitted then, and the scan's only effect is that admission; nobody is returned if and only if no attempt is admitted, and then it has none |
| Dispatch.Manager.Next | pkg/agentgroup/agentgroup.go:309-352 | the same for a whole call, which also moves the counter by one in 64 bits, and does neither for a missing, foreign or empty group |
| Fairness.WindowIsFair | pkg/agentgroup/agentgroup.go:309-352 | any total-weight consecutive calls, from any counter, pick each id exactly its weight times |
| Fairness.CountsAreBounded | pkg/agentgroup/agentgroup.go:309-352 | over any m calls each count lies between floor and ceiling of m over the total weight, times the weight |
| Fairness.FairInWeights | pkg/agentgroup/agentgroup.go:309-352 | in the stored weights: as many calls as they add up to pick each member exactly as often as its weight, and over any m calls its count lies between its weight times floor and ceiling of m over that sum |
| Fairness.WeightOfMember | pkg/agentgroup/agentgroup.go:64-69 | with distinct members an id's share is the weight stored with it, or one if that is not positive |
| Fairness.OwnerInWeights | pkg/agentgroup/agentgroup.go:64-69 | the slots are as many as the weights add up to, and a member's slots are those between the sum of the weights before it and that sum with its own; a weight that is not positive counts as one |
| Fairness.ConsecutiveCalls | pkg/agentgroup/agentgroup.go:309-352 | m actual unfiltered calls, across the wrap of the counter or not, return each id exactly as often as the counting function of the wrap theorem says, and without a wrap as that of the window theorems; so as many calls as the stored weights add up to return each member exactly its weight times |
| Fairness.FairAcrossWrapIff | pkg/agentgroup/agentgroup.go:331-334 | the window law holds for every 64-bit counter value, counted as ConsecutiveCalls counts, if and only if the total weight divides 2^64 or there is one member |
| Fairness.ThreeAreUnfair | pkg/agentgroup/agentgroup.go:331-334 | three members of weight 1 are not treated fairly across the wrap |
| Fairness.EverySlotReachedIff | pkg/agentgroup/agentgroup.go:333-334 | a call tries every slot if and only if its attempts do not wrap or the total weight divides 2^64 |
| Fairness.MissedSlot | pkg/agentgroup/agentgroup.go:333-334 | otherwise this slot is tried by no attempt |
| Fairness.OnlyReturnedBreakerChanges | cmd/spectral-cloud/main.go:3659-3670 | up to the returned agent's breaker, the breakers after a call are what others made them; one the call moves from open to half open is the returned agent's |
| Fairness.NobodyMeansAllTripped | cmd/spectral-cloud/main.go:3659-3670 | an agent is returned if and only if some attempt is admitted; if nobody is, every named member was tried while its breaker was open and inside its timeout, whatever made the breakers and whatever others do meanwhile |
| Fairness.NobodyMeansAllWereTripped | cmd/spectral-cloud/main.go:3659-3670 | if nobody reports a failure of a named member meanwhile and the clock does not go back, its breaker was open and inside its timeout when the call began; if nobody calls at all, no breaker changed |
| Fairness.TrippedIsNotDispatched | cmd/spectral-cloud/main.go:3659-3670 | whatever history made the breakers and whatever others do meanwhile, a tripped agent is not returned before its timeout unless reset or deleted |
| Ids.ParseFormat | pkg/jobs/jobs.go:102-110 | parsing a printed id gives its number, for every 64-bit number and prefix |
| Store.PutRefinesUpdate | pkg/store/store.go:370-380 | insertion into the sorted bucket keeps it sorted and is a map update |
| Store.DeleteRefinesRemoval | pkg/store/store.go:401-410 | deletion keeps it sorted and is a map removal |
| Store.KVStore.PutKV | pkg/store/store.go:370-380 | exactly one key of one tenant changes; a missing bucket is created; the empty tenant is refused and nothing changes |
| Store.KVStore.DeleteKV | pkg/store/store.go:401-410 | exactly one key of one tenant goes; a missing bucket or key is no error |
| Store.Seek | pkg/store/store.go:420-422 | the first key not below the prefix, before which no key has it |
| Store.Visit | pkg/store/store.go:420-427 | seek and stop at the first mismatch visits exactly the entries with the prefix, once, in order, up to the first failure of the callback |
| Store.KVStore.ScanPrefix | pkg/store/store.go:412-429 | the same for a tenant, and nothing for a missing one |
| Store.PrefixIsConvex | pkg/store/store.go:420-422 | between a prefix and a key that has it, in byte order, lie only keys that have it |
| Store.LeqIsLexicographic | pkg/store/store.go:420-422 | byte order: one is a prefix of the other, or has the smaller byte where they first differ |
| Store.NoneAfterStop | pkg/store/store.go:422 | from the first mismatch on no key has the prefix |
| Store.WithPrefixMember | pkg/store/store.go:412-429 | the visited entries are those of the bucket whose key has the prefix, both directions |
| Store.WithPrefixSorted | pkg/store/store.go:412-429 | they come in key order without repetition |
| Store.NamespacesAreDisjoint | pkg/store/store.go:370-372 | no key belongs to two of the seven record namespaces, and none of the three fixed keys belongs to any |
| Jobs.Queue.constructor | pkg/jobs/jobs.go:64-68 | a new queue is empty over the given store |
| Jobs.Queue.LoadFromStore | pkg/jobs/jobs.go:70-100 | the table, counter and result after reading a tenant's namespace, skipping what does not decode |
| Jobs.Queue.Write | pkg/jobs/jobs.go:112-125 | setting a job and writing it through changes nothing else, and keeps the mirror when the id fits the counter and keeps its tenant |
| Jobs.Queue.Remove | pkg/jobs/jobs.go:127-135 | the same for dropping a job |
| Jobs.PersistKeepsMirror | pkg/jobs/jobs.go:112-125 | writing a job under its tenant keeps the job namespaces equal to the table |
| Jobs.UnpersistKeepsMirror | pkg/jobs/jobs.go:127-135 | so does deleting one |
| Jobs.Queue.SubmitWithOpts | pkg/jobs/jobs.go:148-175 | a pending job under the next 64-bit number, with its expiry, written through, and nothing else changed; until the number wraps around the id is not in use and the mirror is kept |
| Jobs.Queue.Update | pkg/jobs/jobs.go:188-203 | exactly the named job changes, or nothing; mirror kept |
| Jobs.Queue.Cancel | pkg/jobs/jobs.go:231-247 | cancelled if found and not done, failed or cancelled, else nothing; mirror kept |
| Jobs.Queue.FindBest | pkg/jobs/jobs.go:257-276 | whatever the map order, an eligible job such that every eligible job has lower priority, or the same and was not created earlier; or none if there is none |
| Jobs.Queue.Claim | pkg/jobs/jobs.go:249-287 | in the fields: among the pending jobs of the agent or, without one, of the capability asked for, one of highest priority and then earliest creation becomes running and is returned; none if and only if there is none; mirror kept |
| Jobs.Queue.ClaimForTenant | pkg/jobs/jobs.go:289-326 | the same among one tenant's pending jobs of the capability, if one is asked for, that are unassigned or assigned to the agent |
| Jobs.Queue.ExpireStale | pkg/jobs/jobs.go:328-345 | exactly the pending jobs whose expiry is before now fail, with the error "ttl expired", and their number is returned; mirror kept |
| Jobs.Queue.ExpireLoop | pkg/jobs/jobs.go:334-343 | the loop over the table, in any order, leaves nothing to do |
| Jobs.Queue.Prune | pkg/jobs/jobs.go:380-394 | exactly the done, failed and cancelled jobs last updated before the cutoff go, and their number is returned; mirror kept |
| JobRecovery.ScanFindsJobs | pkg/jobs/jobs.go:73-88 | the scan of a mirrored bucket finds all its tenant's jobs and nothing else |
| JobRecovery.Recover | cmd/spectral-cloud/main.go:611-618 | loading every tenant into a fresh queue, in any order, rebuilds the identical table (but for jobs of the empty tenant, which the store refuses), with the counter at the highest number in it |
| JobRecovery.ClaimedAtMostOnce | pkg/jobs/jobs.go:253-326 | in every run, restarts included, between two claims of an id there was a new submission of it or an update to pending |
| JobRecovery.SubmittedIdIsFresh | pkg/jobs/jobs.go:149-175 | every id submitted in a run, also after restarts, is not in the table |
| JobRecovery.RestartLowersIff | pkg/jobs/jobs.go:89-98 | a restart never raises the counter, and lowers it if and only if the job numbered last is not in the store |
| JobRecovery.NumbersWereSubmitted | pkg/jobs/jobs.go:149-150 | every number up to the counter was submitted before |
| JobRecovery.SubmitAfterForgetting | pkg/jobs/jobs.go:89-98 | the first submission after such a restart repeats an id submitted before it |
| JobRecovery.GivenOutOnceIff | pkg/jobs/jobs.go:149-175 | in every run, no id is given out twice if and only if nothing is submitted after a restart at which the job numbered last was not in the store |
| JobRecovery.PrunedIdIsReused | pkg/jobs/jobs.go:380-394 | such a run exists: an id is submitted, claimed, finished, pruned, and after a restart submitted again |
| JobRecovery.DurableIff | pkg/jobs/jobs.go:112-125 | a restart keeps every job if and only if every job has a tenant |
| JobRecovery.TenantlessIsLost | pkg/jobs/jobs.go:112-125 | a job of the empty tenant, submitted and then lost by a restart |
| Scheduler.OneRunnerPerActive | pkg/scheduler/scheduler.go:182-194 | the invariant gives exactly one uncancelled runner per active schedule and none per paused or absent one |
| Scheduler.StepKeepsLive | pkg/scheduler/scheduler.go:86-347 | every step keeps it, including updates refused half way, deletions, the steps of cancelled runners, and loads over any id whose entry has no runner |
| Scheduler.StopAllCancels | pkg/scheduler/scheduler.go:340-347 | stopping everything cancels every runner |
| Scheduler.LoadOverExistingIff | pkg/scheduler/scheduler.go:104-115 | a load keeps handles and runners matched if and only if it replaces no entry with a runner, which before everything is stopped means no active one |
| Scheduler.RunnersAfterLoad | pkg/scheduler/scheduler.go:104-115 | after a load the id has as many live runners as the replaced and the loaded schedule have active flags |
| Scheduler.AcceptedUpdate | pkg/scheduler/scheduler.go:224-279 | an accepted update sets each field that is given and leaves every other field, and every other schedule, as it was |
| Scheduler.RefusedUpdateIff | pkg/scheduler/scheduler.go:239-257 | a refused update leaves everything as it was if and only if it is refused for its name, or the edits before the refusal change nothing |
| Scheduler.RefusedUpdateRenames | pkg/scheduler/scheduler.go:239-257 | a new name and an interval that is too short: refused, and renamed |
| SchedulerRuns.RunIsLive | pkg/scheduler/scheduler.go:154-347 | the invariant and the balance hold in every state of every run |
| SchedulerRuns.OneRunnerAlways | pkg/scheduler/scheduler.go:154-291 | in every run, before everything is stopped: one live runner per active schedule, ticking at its present interval, and none otherwise |
| SchedulerRuns.PauseAndResume | pkg/scheduler/scheduler.go:263-275 | in every run, before everything is stopped: after an accepted pause the schedule has no live runner, and after an accepted resume exactly one |
| SchedulerRuns.StepKeepsBalance | pkg/scheduler/scheduler.go:196-221 | every step keeps, per schedule, jobs posted and ticks skipped since it came in equal to the growth of its run count and of the runners between submission and accounting |
| SchedulerRuns.SubmissionsAreCounted | pkg/scheduler/scheduler.go:196-221 | in every run, jobs posted since a schedule came in never exceed the growth of its run count plus such runners, and the difference is the ticks skipped and the runners an earlier schedule of the id had left |
| SchedulerRuns.PausedSubmitsOnlyHeld | pkg/scheduler/scheduler.go:281-291 | while a schedule stays paused only snapshots taken before can still be submitted, each at most once |
| Scheduler.StepKeepsLoose | pkg/scheduler/scheduler.go:86-347 | with any loads too: every handle is that of a live runner of its schedule, active schedules have one, and numbers stay below the counter |
| Scheduler.StrayIff | pkg/scheduler/scheduler.go:86-347 | a step leaves a runner stray if and only if it was, or the step loads over the entry that has its handle |
| SchedulerStrays.StrayForever | pkg/scheduler/scheduler.go:86-347 | in every run with any loads a runner is stray if and only if the entry that had its handle was loaded over before |
| SchedulerStrays.StrayPosts | pkg/scheduler/scheduler.go:196-221 | a stray runner submits, on a tick, for whatever active schedule has its id |
| SchedulerStrays.RunnersAreHandleAndStrays | pkg/scheduler/scheduler.go:182-194 | the live runners of an id are its strays and one more if its schedule is active |
| SchedulerStrays.LoadOverActive | pkg/scheduler/scheduler.go:104-115 | adding a schedule and loading an active record over it leaves two runners, one of them stray |
| SchedulerManager.Manager.Add | pkg/scheduler/scheduler.go:153-180 | the method takes exactly the step of the system: refused without a name or below 50 milliseconds, else an active schedule with these fields under the next number |
| SchedulerManager.Manager.LoadAll | pkg/scheduler/scheduler.go:104-118 | likewise, for the loaded schedules in order |
| SchedulerManager.Manager.LoadOne | pkg/scheduler/scheduler.go:105-115 | likewise, for one of them |
| SchedulerManager.Manager.StartLocked | pkg/scheduler/scheduler.go:182-186 | a new runner with a new handle |
| SchedulerManager.Manager.StopLocked | pkg/scheduler/scheduler.go:188-194 | the runner of the handle is cancelled and the handle dropped |
| SchedulerManager.Manager.Update | pkg/scheduler/scheduler.go:223-279 | the method takes exactly the step of the system; found if and only if the tenant owns it, accepted if and only if the name is not empty and the interval not below 50 milliseconds; then each field that is given is set and the others stay |
| SchedulerManager.Manager.Rearm | pkg/scheduler/scheduler.go:236-278 | the part after the look-up: edits, and the runner stopped, started or replaced |
| SchedulerManager.Manager.EditFields | pkg/scheduler/scheduler.go:236-265 | the edits one after the other, up to the first refused, and whether the interval changed |
| SchedulerManager.Manager.Delete | pkg/scheduler/scheduler.go:304-316 | likewise |
| SchedulerManager.Manager.StopAll | pkg/scheduler/scheduler.go:340-347 | the loop, in whatever order, cancels exactly the runners that have a handle |
| SchedulerManager.Manager.TakeSnapshot | pkg/scheduler/scheduler.go:281-291 | a snapshot of the schedule's fields if and only if it is there and active |
| SchedulerManager.Manager.Submit | pkg/scheduler/scheduler.go:205-210 | what is submitted is the snapshot |
| SchedulerManager.Manager.AccountRun | pkg/scheduler/scheduler.go:211-218 | whatever schedule has the id now has one more run, and this as its last |
| Routing.FilterRoutes | pkg/routing/routing.go:321-331 | the matching live routes, in order |
| Routing.FilteredInFields | pkg/routing/routing.go:354-368 | in the fields: exactly the routes that have not expired, are within the latency and throughput asked for, of the kind asked for, and have every tag asked for |
| Routing.SelectBest | pkg/routing/routing.go:333-352 | for any score, rounded or not: the first least-scoring matching route, or none if and only if nothing matches |
| Routing.RankedRoutes | pkg/routing/routing.go:276-302 | for any score: a stable ranking of the matching live routes |
| Routing.HeadIsFirstLeast | pkg/routing/routing.go:278-352 | for any score the head of a stable ranking is the first least, and both are empty together: selection and ranking agree |
| Routing.RankingIsUnique | pkg/routing/routing.go:294-296 | a list has one stable ranking |
| Routing.RankingExists | pkg/routing/routing.go:294-296 | and it has one |
| Routing.RankingIsPermutation | pkg/routing/routing.go:278-302 | ranking neither adds nor loses a route |
| Routing.ScoreIsCost | pkg/routing/routing.go:370-384 | where whole numbers are not rounded the score is latency, plus a positive penalty for a satellite, less throughput, neither below zero |
| Routing.CostPrefers | pkg/routing/routing.go:370-384 | of two routes alike but for it, more throughput and less latency cost less, and a satellite costs more by exactly a positive penalty |
| Routing.PruningIsInvisible | pkg/routing/routing.go:438-451 | dropping expired routes changes no answer at that time or later |
| Routing.PruneRoutes | cmd/spectral-cloud/main.go:6312-6322 | exactly the routes that have not expired, in order |
| Routing.Engine.AddRouteWithTTL | pkg/routing/routing.go:127-150 | appended with its expiry, or refused for an empty destination or a negative metric |
| Routing.Engine.Load | pkg/routing/routing.go:249-256 | the table is replaced |
| Routing.Engine.PruneExpired | pkg/routing/routing.go:438-451 | exactly the expired routes go, and no filter sees a difference from then on |
| Resolve.CandidatesOf | cmd/spectral-cloud/main.go:1558-1591 | the routes of a scope, in table order |
| Resolve.SelectScope | cmd/spectral-cloud/main.go:1528-1556 | the best route and the next ranks, or nothing if and only if no route matches; and the attempt that is logged |
| Resolve.TryScope | cmd/spectral-cloud/main.go:1558-1596 | a scope answers if and only if it was asked for, is allowed and holds a live match |
| Resolve.ResolveRoute | cmd/spectral-cloud/main.go:1487-1602 | bad request, not found, or the answer of the narrowest scope that is asked for, allowed and holds a live match: its least route, the next min(k, matches - 1) ranks, and the log of scopes tried; or a crash, exactly as CrashIff says |
| Resolve.NarrowestIsUnique | cmd/spectral-cloud/main.go:1558-1596 | at most one scope is the narrowest |
| Resolve.ReplyIsDetermined | cmd/spectral-cloud/main.go:1487-1602 | any two replies that keep that promise are the same reply |
| ResolveLaws.ReplyInFields | cmd/spectral-cloud/main.go:1487-1602 | a bad request exactly for a limit that is no scope or narrower than what is asked for or a negative count; not found exactly if no permitted scope holds a live match; else the narrowest that does |
| ResolveLaws.HitsInFields | cmd/spectral-cloud/main.go:1558-1591 | the matches of a scope are the routes whose region and site tags put them there and which pass the filter |
| ResolveLaws.BestInFields | cmd/spectral-cloud/main.go:1528-1556 | where whole numbers are not rounded, no live match of the answering scope has less latency, plus penalty if a satellite, less throughput than the route returned |
| ResolveLaws.AlternativesInFields | cmd/spectral-cloud/main.go:1541-1551 | the alternatives are live matches of the scope in order of cost, none below the route returned, as many as asked for or as there are besides it |
| ResolveLaws.ExplanationInFields | cmd/spectral-cloud/main.go:1520-1555 | an explanation lists the permitted scopes up to the one that answered, narrowest first, with their routes and matches counted |
| ResolveLaws.MergeInFields | cmd/spectral-cloud/main.go:1417-1486 | an item's own field, else the default's, else nothing, for every field |
| Resolve.CrashIff | cmd/spectral-cloud/main.go:1541-1549 | the handler crashes if and only if a valid request asks for the largest number of alternatives and the scope that answers has more than one live match |
| Resolve.CrashHappens | cmd/spectral-cloud/main.go:1541-1549 | two untagged routes that do not expire and one request crash the handler |
| Resolve.DefaultsAreFilledIn | cmd/spectral-cloud/main.go:1417-1486 | merging defaults into an item, trims included, gets the reply of the item with its missing fields filled in, both directions |
| Resolve.ResolveBatch | cmd/spectral-cloud/main.go:1717-1734 | every item is resolved as above, each at its own time; the three counters count their replies and add up to the number of items; or some item crashes |
| Chain.Blockchain.constructor | pkg/blockchain/blockchain.go:37-62 | a new chain is one well-formed genesis block |
| Chain.Blockchain.AddBlock | pkg/blockchain/blockchain.go:113-130 | one block more, with the transactions and time given, the next number, the last block's hash as its link and its own hash over number, time and transactions; a well-formed chain stays so |
| Chain.Blockchain.AddSignedBlock | pkg/blockchain/blockchain.go:132-140 | the same block with a signature over the hash when there is a key; a well-formed chain stays so |
| Chain.Blockchain.RemoveLastBlock | pkg/blockchain/blockchain.go:168-176 | one block less but never the genesis block; a well-formed chain stays so |
| Chain.Blockchain.Load | pkg/blockchain/blockchain.go:259-273 | the given blocks, or a genesis block for none |
| Chain.Blockchain.VerifyChain | pkg/blockchain/blockchain.go:222-237 | true if and only if every block's hash is that of its fields and every link is the hash before it; else the first position that is not |
| Chain.FilterValidBlocks | cmd/spectral-cloud/main.go:6293-6310 | the longest prefix whose blocks pass the filter's own test |
| Chain.KeptPrefix | cmd/spectral-cloud/main.go:6293-6310 | that prefix: all its blocks pass, and the next one, if there is one, does not |
| Chain.ValidatorsAgreeIff | cmd/spectral-cloud/main.go:6293-6310 | for every list, both validators stop at the same block if and only if no block up to the first bad one is seen by one of them only |
| Chain.ValidatorsAgree | pkg/blockchain/blockchain.go:222-237 | numbered 0 first and positive after, the filter keeps the longest intact prefix, up to the first bad block of the chain check |
| Chain.ShapeIsNeeded | cmd/spectral-cloud/main.go:6300-6302 | a second block numbered 0 with a wrong link passes the filter and fails the chain check |
| Chain.WellFormedIsKept | cmd/spectral-cloud/main.go:6293-6310 | a well-formed chain passes both whole |
| Chain.CleanIsWellFormed | cmd/spectral-cloud/main.go:6293-6310 | for chains numbered from 0, passing the filter whole is being well formed |
| Chain.CleanInFields | cmd/spectral-cloud/main.go:6293-6310 | a list passes the filter whole if and only if every hash is that of its block's fields and every block numbered above 0 links to the one before it |
| Tenant.TenantStore.EnsureTenant | pkg/store/store.go:158-170 | the bucket exists afterwards; a blank name is refused |
| Tenant.TenantStore.WriteBlocks | pkg/store/store.go:258-273 | exactly the tenant's blocks are replaced, and the default tenant's older copy dropped |
| Tenant.TenantStore.WriteRoutes | pkg/store/store.go:275-290 | the same for routes |
| Tenant.StoredWhere | pkg/store/store.go:328-346 | a tenant's own key if it is there; else, for the default tenant alone, the older copy; else nothing |
| Tenant.Manager.constructor | cmd/spectral-cloud/tenant.go:24-29 | nothing cached |
| Tenant.Manager.GetTenant | cmd/spectral-cloud/tenant.go:31-89 | the cached chain and routes, or those loaded and cached; the whole cache and store afterwards, also when any one store operation fails; an error if and only if nothing ends up cached |
| Tenant.Manager.LoadState | cmd/spectral-cloud/tenant.go:49-88 | loading and caching one tenant, or an error that leaves the cache as it was; no two tenants share a chain |
| Tenant.Manager.LoadChain | cmd/spectral-cloud/tenant.go:49-66 | the kept prefix in memory and in the store, or a persisted genesis block when nothing was stored; or an error when a read, or a write that is called for, fails |
| Tenant.Manager.LoadRoutes | cmd/spectral-cloud/tenant.go:68-81 | the live routes in memory and in the store; or an error likewise |
| Tenant.Manager.AddTransactions | cmd/spectral-cloud/main.go:1019 | one signed block more in that tenant's chain, in memory alone, and no other tenant touched |
| Tenant.Manager.SaveChain | pkg/store/store.go:292-308 | the tenant's chain goes to the store as it is |
| Tenant.ReloadIsIdentity | cmd/spectral-cloud/tenant.go:49-66 | stored blocks are loaded and left as they are if and only if the filter keeps them all; a well-formed chain is such a list |
| Tenant.RepairKeepsIntactPrefix | cmd/spectral-cloud/tenant.go:54-61 | whatever was stored in index order, memory is intact and the store holds its longest intact prefix |
| Tenant.InSyncIff | cmd/spectral-cloud/tenant.go:53-66 | memory and store agree after loading if and only if nothing was stored or the first block is kept |
| Tenant.BadFirstBlock | cmd/spectral-cloud/tenant.go:53-66 | a stored first block with a wrong hash: a new genesis block in memory, nothing in the store |
| Tenant.SaveAndRestart | cmd/spectral-cloud/tenant.go:31-89 | saving a chain the filter keeps and loading it with a new manager gives it back |
| TenantRuns.StepKeepsClean | cmd/spectral-cloud/tenant.go:31-97 | whatever the store holds and whatever fails: loading, adding, removing, saving, route changes, deletion and restarts keep every chain in memory one that the filter keeps |
| TenantRuns.RunIsClean | cmd/spectral-cloud/tenant.go:31-97 | so it is in every state of every run over any store |
| TenantRuns.GetEffect | cmd/spectral-cloud/tenant.go:31-89 | loading anyone repairs the stored blocks of the one loaded, as far as loading gets, and touches no other tenant |
| TenantRuns.StepKeepsSound | cmd/spectral-cloud/tenant.go:31-97 | if a tenant's stored blocks are numbered from 0, hashes and links broken or not, every step keeps them so and its chain in memory well formed, whatever other tenants' blocks are |
| TenantRuns.RunIsSound | cmd/spectral-cloud/tenant.go:31-97 | in every state of every run over a store in which a tenant's blocks are numbered from 0, however broken, its chain in memory is not empty, numbered and intact |
| TenantRuns.StepKeepsStored | pkg/store/store.go:258-308 | stored blocks the filter keeps stay, whoever is loaded or saved and whatever fails |
| TenantRuns.SavedStays | pkg/store/store.go:258-308 | in every run over any store: until a tenant is saved again or deleted, the store holds what was saved last, through loads and repairs of anyone, failures and restarts |
| TenantRuns.LastSavedIsReloaded | cmd/spectral-cloud/tenant.go:31-89 | restart is the identity: in every run over any store, a tenant loaded again has the blocks saved last |
| TenantRuns.SavedRoutesAreReloaded | cmd/spectral-cloud/tenant.go:68-81 | routes come back too, in every run over any store: from the time of loading on no filter tells those loaded from those saved last |
| TenantRuns.GetPrunesStored | cmd/spectral-cloud/tenant.go:68-81 | loading drops at most the expired routes of the tenant loaded from the store, and no other tenant's |
| Events.Broker.constructor | pkg/events/events.go:77-91 | an empty history of the given size, none for a negative one |
| Events.Broker.Publish | pkg/events/events.go:120-136 | the ring write appends to the log the ring stands for |
| Events.Broker.NewestFirst | pkg/events/events.go:170-175 | the i-th step back from the write position is in range and holds the i-th newest event |
| Events.Broker.History | pkg/events/events.go:148-177 | the last events of the entire log in order, as many as asked for, retained and published |
| Mesh.SecureEquals | pkg/mesh/mesh.go:425-434 | the accumulating comparison is equality |
| Mesh.VerifyPayload | pkg/mesh/mesh.go:394-417 | accepted if and only if there are no keys, or the signature is that of one of the visible keys |
| Mesh.SealedIsAuthentic | pkg/mesh/mesh.go:380-417 | what is signed with a visible key is accepted wherever that key is a candidate |
| Mesh.SharedKeyIsEnough | pkg/mesh/mesh.go:436-462 | sender's key choice and receiver's candidates meet whenever the receiver holds the key, for all or for that peer |
| Mesh.Latency | pkg/mesh/mesh.go:322-328 | the time since a positive timestamp if it is positive and below an hour, else zero |
| Mesh.JudgeInFields | pkg/mesh/mesh.go:280-321 | refused by form: what does not decode or is no heartbeat or handshake; by authority: another tenant than the node's, if it has one, and a signature by none of its keys; the tenant before the payload |
| Mesh.KeysInFields | pkg/mesh/mesh.go:436-462 | a peer's own visible key, else the first shared one, else none; and checked with exactly the keys of the claimed and the actual address and the shared ones |
| Mesh.PacketSumGrows | pkg/mesh/mesh.go:349-359 | one more packet of a peer, new or known, is one more in the sum over peers |
| Mesh.Node.constructor | pkg/mesh/mesh.go:90-98 | all counters start at zero and balance |
| Mesh.Node.Receive | pkg/mesh/mesh.go:281-283 | the packet is in hand and the books balance |
| Mesh.Node.Reject | pkg/mesh/mesh.go:286-321 | rejected by one cause, and the books balance |
| Mesh.Node.CountPeer | pkg/mesh/mesh.go:349-359 | the peer's entry, new or known, and the books balance |
| Mesh.Node.Accept | pkg/mesh/mesh.go:361-363 | accepted, and the books balance |
| Mesh.Node.LearnRoutes | pkg/mesh/mesh.go:338-347 | gossip with a destination is added in order |
| Mesh.Node.HandlePacket | pkg/mesh/mesh.go:280-364 | received = accepted + rejected, rejected = by signature + by form, peers' packets = accepted, at the end and at every step between; which verdict each packet gets; and what an accepted one changes |
| Mesh.LearntRoutesAreSound | pkg/mesh/mesh.go:338-347 | whatever peers send, learnt routes have a destination and no negative metric, earlier routes stay, and everything sent with a visible destination and no negative metric is learnt |
| Pipelines.Manager.CheckStages | pkg/pipeline/pipeline.go:215-226 | at least one stage, each with an agent or a capability, both directions |
| Pipelines.Manager.LoadFromStore | pkg/pipeline/pipeline.go:164-213 | the records come in under their own ids, pipelines first, and the counters go past them |
| Pipelines.Manager.CreatePipeline | pkg/pipeline/pipeline.go:228-249 | the method takes the step of the system: a pipeline with these fields under the next number, if and only if named and valid |
| Pipelines.Manager.UpdatePipeline | pkg/pipeline/pipeline.go:278-300 | likewise; accepted, name and stages are set where given; a new name is kept when the stages are refused |
| Pipelines.Manager.DeletePipeline | pkg/pipeline/pipeline.go:302-313 | likewise |
| Pipelines.RefusedEditIff | pkg/pipeline/pipeline.go:286-295 | a refused edit leaves everything as it was if and only if the name it asks for is none, empty or the present one |
| Pipelines.RefusedEditRenames | pkg/pipeline/pipeline.go:286-295 | a new name and no stages: refused, and renamed |
| Pipelines.Manager.StartRun | pkg/pipeline/pipeline.go:315-341 | likewise; a running run at stage 0 without jobs, and the first stage, if and only if the tenant owns the pipeline |
| Pipelines.Manager.RecordStageJob | pkg/pipeline/pipeline.go:343-355 | likewise |
| Pipelines.Manager.AdvanceRun | pkg/pipeline/pipeline.go:357-390 | likewise; of a running run of the tenant whose pipeline is there: failed ends it as failed, the last stage as done, and otherwise the stage is one higher and is returned, in bounds of the pipeline as it is now |
| Pipelines.TraceIsSound | pkg/pipeline/pipeline.go:164-390 | in every run, records read back included, every stored pipeline has valid stages, and run ids stay below the counter |
| Pipelines.StepKeepsRun | pkg/pipeline/pipeline.go:343-390 | only a successful advance of a run changes its status or stage, only a recording its jobs, and no run disappears |
| Pipelines.EndedStaysEnded | pkg/pipeline/pipeline.go:367-369 | done and failed are absorbing |
| Pipelines.DoneAfterAllStages | pkg/pipeline/pipeline.go:357-390 | with its pipeline left alone, after k successful advances a run is at stage k, and done after exactly as many as there are stages |
| Pipelines.JobsMatchSuccesses | pkg/pipeline/pipeline.go:343-390 | in every trace, while recording and successful advances of a run take turns, its jobs are those recorded for it in order, one per success and one more while one is pending |
| Pipelines.OneJobPerStage | pkg/pipeline/pipeline.go:343-390 | in every trace, with anything in between: while recording and successful advances of a run take turns and its pipeline is left alone, it has one job for every stage behind it and one more if one is pending, and exactly one per stage when it is done |

## Left out

Contracts that say less than the program does, or ask more than it does:

- MathParsing.EvalMath: numeral conversion is one partial function, so a syntax error and a range error of the library are one error.
- Summary.ExtractiveSummarize: trimming and the normalization of words are uninterpreted; the text is valid UTF-8; n is not negative, as its caller ensures.
- Dispatch.Manager.Create: loading groups from the store is not modelled.
- Dispatch.Manager.Next: weights add up without overflow of the machine integer. No lock spans the attempts, so others may change a breaker between two of them; that is what `others` stands for. Each call on the breakers is one step.
- Fairness.NobodyMeansAllTripped: asks that every slot be tried, by the condition of EverySlotReachedIff; otherwise a member whose slots are skipped may be admissible.
- Ids.ParseFormat: the parser here skips no blanks and takes no sign before the digits, which the library's scan would; printed ids have neither.
- Jobs.Queue.SubmitWithOpts: taking the number and entering the job are one step; past the wrap of the 64-bit counter nothing is promised of the mirror.
- JobRecovery.Recover: store writes for a named tenant succeed, records decode to what was encoded, and no tenant is deleted, so that the mirror is there to start from.
- Scheduler.StepKeepsLive: loads over an entry with a runner are left to LoadOverExistingIff and RunnersAfterLoad, which say what they do; the counter is below its 64-bit maximum; a runner reads its interval when it is started.
- SchedulerManager.Manager.Submit: the scheduler always has a queue; without one the program skips the submission.
- Routing.SelectBest: scores are real numbers, rounded in any way; the program's are never infinite or undefined, and its starting score of 2^62 is never compared.
- Routing.RankedRoutes: an insertion sort stands for the library's stable sort, of which only the contract matters.
- Resolve.ResolveRoute: each scope is ranked at one instant; the echo of the request in an explanation and the echo of an item's id in a batch are not modelled.
- Chain.Blockchain.AddBlock: the chain is not empty, which the constructor and Load ensure; the signature's own check is not modelled.
- Tenant.Manager.GetTenant: an operation on the store fails as a whole or not at all; a failure to decode is a failure to read.
- TenantRuns.RunIsSound: the import of foreign blocks and the migration of older files are not modelled; both add or filter blocks by the operations that are.
- Events.Broker.Publish: delivery to subscribers and the filling in of missing ids and times are not modelled.
- Mesh.SealedIsAuthentic: a payload decodes from the wire to what was encoded.
- Mesh.Node.HandlePacket: packets are handled one after the other, as the reader loop does, each at one instant.
- Pipelines.TraceIsSound: the run counter is below its 64-bit maximum; records read back were written by this program, before their ids are in use again.

Parts of the repository that are not modelled:

- Locks: every operation that runs under one lock is one step; the steps of the scheduler's runners and the attempts of a dispatch interleave with others.
- Listing and counting operations of the queue, groups, schedules, pipelines and breakers, which only read.
- Persistence of schedules, groups, pipelines and notification rules; only jobs and chains are followed into the store.
- Queues and managers without a store.
- The rest of the routing table's editing operations and its tag search.
- Tamper evidence of the chain: the hash does not cover the link, so only linkage is stated.
- HTTP handlers, authentication, metrics, webhooks, notifications, health checks, transports, backups, configuration, rate limits, billing, the key-value and agent registries, and the command-line client.
