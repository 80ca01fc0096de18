/**
 * `getQueries` (src/logic.ts): generate statements for the user's prompt, check each with the
 * SQL parser, and ask for repairs of the rejected ones, for at most three rounds. The parser
 * check `validateQuery` is an arbitrary predicate, and `generateQueries` and `fixQueries`
 * are oracles given the number of the call; `Connect` wires them to the functions of the
 * completion module.
 */
module Orchestrator {
  import opened Wrappers
  import opened Chat
  import Completion

  /** Everything a run depends on: the two service calls, for a given call number (and, for
      the repair, the failed statements), and the parser check. */
  datatype Context = Context(
    generate: nat -> Result<seq<string>>,
    fix: (nat, seq<string>) -> Result<seq<string>>,
    validate: string -> bool)

  /** The context of one `getQueries(apiKey, prompt, history)` call. */
  function Connect(service: Completion.Service, validate: string -> bool,
                   apiKey: string, prompt: string, history: seq<ChatMessage>): (ctx: Context)
    ensures forall n :: ctx.generate(n) == Completion.GenerateQueries(service, n, apiKey, prompt, history)
    ensures forall n, failed :: ctx.fix(n, failed) == Completion.FixQueries(service, n, apiKey, prompt, failed)
    ensures ctx.validate == validate
  {
    Context(
      (n: nat) => Completion.GenerateQueries(service, n, apiKey, prompt, history),
      (n: nat, failed: seq<string>) => Completion.FixQueries(service, n, apiKey, prompt, failed),
      validate)
  }

  /** A call to the service made by the loop. */
  datatype Call = Generation | Repair(failed: seq<string>)

  const MaxAttempts: nat := 3

  /** The loop's variables between two rounds, with a record of the calls made (`calls`)
      and of the list checked in each round (`batches`). `pending` is `generatedQueries`. */
  datatype Progress = Progress(
    attempts: nat,
    pending: seq<string>,
    failed: seq<string>,
    accepted: seq<string>,
    calls: seq<Call>,
    batches: seq<seq<string>>)

  const Start: Progress := Progress(0, [], [], [], [], [])

  /** The statements of `batch` that pass the check, in order. */
  function Passing(validate: string -> bool, batch: seq<string>): seq<string>
    decreases |batch|
  {
    if batch == [] then []
    else
      var n := |batch| - 1;
      Passing(validate, batch[..n]) + (if validate(batch[n]) then [batch[n]] else [])
  }

  /** The statements of `batch` that fail the check, in order. */
  function Failing(validate: string -> bool, batch: seq<string>): seq<string>
    decreases |batch|
  {
    if batch == [] then []
    else
      var n := |batch| - 1;
      Failing(validate, batch[..n]) + (if !validate(batch[n]) then [batch[n]] else [])
  }

  /** What passes is taken from the batch and passed the check; what fails is taken from the
      batch and failed it. */
  lemma {:induction false} FilterSound(validate: string -> bool, batch: seq<string>)
    ensures forall q <- Passing(validate, batch) :: validate(q) && q in batch
    ensures forall q <- Failing(validate, batch) :: !validate(q) && q in batch
    decreases |batch|
  {
    if batch != [] {
      var n := |batch| - 1;
      var front := batch[..n];
      FilterSound(validate, front);
      assert Passing(validate, batch) == Passing(validate, front) + (if validate(batch[n]) then [batch[n]] else []);
      assert Failing(validate, batch) == Failing(validate, front) + (if !validate(batch[n]) then [batch[n]] else []);
      forall q | q in front
        ensures q in batch
      {
        var k :| 0 <= k < n && front[k] == q;
        assert batch[k] == q;
      }
    }
  }

  lemma FilterStep(validate: string -> bool, batch: seq<string>, i: nat)
    requires i < |batch|
    ensures Passing(validate, batch[..i + 1]) == Passing(validate, batch[..i]) + (if validate(batch[i]) then [batch[i]] else [])
    ensures Failing(validate, batch[..i + 1]) == Failing(validate, batch[..i]) + (if !validate(batch[i]) then [batch[i]] else [])
  {
    assert batch[..i + 1][..i] == batch[..i];
  }

  /** Every statement of a batch is either accepted or sent for repair, none is both, and none
      is lost: their counts add up. */
  lemma {:induction false} PartitionCounts(validate: string -> bool, batch: seq<string>)
    ensures |Passing(validate, batch)| + |Failing(validate, batch)| == |batch|
    decreases |batch|
  {
    if batch != [] {
      PartitionCounts(validate, batch[..|batch| - 1]);
    }
  }

  /** One pass of the `do` body: fetch a fresh batch when none is pending, then check it.
      A thrown call ends the run with its error. */
  function Round(ctx: Context, p: Progress): Result<Progress>
  {
    if |p.pending| == 0 then
      match ctx.generate(|p.calls|)
      case Err(e) => Err(e)
      case Ok(batch) => Check(ctx, p, batch, p.calls + [Generation])
    else Check(ctx, p, p.pending, p.calls)
  }

  /** The rest of the pass: accept the statements that pass, and request repairs of the
      others when there are any. */
  function Check(ctx: Context, p: Progress, batch: seq<string>, calls: seq<Call>): Result<Progress>
  {
    var failed := Failing(ctx.validate, batch);
    var accepted := p.accepted + Passing(ctx.validate, batch);
    if |failed| > 0 then
      match ctx.fix(|calls|, failed)
      case Err(e) => Err(e)
      case Ok(repaired) => Ok(Progress(p.attempts + 1, repaired, failed, accepted, calls + [Repair(failed)], p.batches + [batch]))
    else Ok(Progress(p.attempts + 1, batch, failed, accepted, calls, p.batches + [batch]))
  }

  /** The loop from the top of a round: repeat while the last round had failures and fewer
      than three rounds have run. */
  function Run(ctx: Context, p: Progress): Result<Progress>
    requires p.attempts < MaxAttempts
    decreases MaxAttempts - p.attempts
  {
    match Round(ctx, p)
    case Err(e) => Err(e)
    case Ok(q) =>
      if |q.failed| != 0 && q.attempts < MaxAttempts then Run(ctx, q) else Ok(q)
  }

  lemma RunAfterRound(ctx: Context, p: Progress)
    requires p.attempts < MaxAttempts
    ensures Round(ctx, p).Err? ==> Run(ctx, p) == Err(Round(ctx, p).error)
    ensures Round(ctx, p).Ok? ==>
      var q := Round(ctx, p).value;
      Run(ctx, p) == if |q.failed| != 0 && q.attempts < MaxAttempts then Run(ctx, q) else Ok(q)
  {
  }

  /** What `getQueries` returns, or the error it throws. */
  function Outcome(ctx: Context): Result<seq<string>>
  {
    match Run(ctx, Start)
    case Ok(p) => Ok(p.accepted)
    case Err(e) => Err(e)
  }

  /** The `for` loop of a round: each statement of the batch, in order, is appended to the
      accepted list when it passes the check and to the failed list otherwise. */
  method ValidateBatch(validate: string -> bool, batch: seq<string>, accepted: seq<string>)
    returns (acceptedAfter: seq<string>, failed: seq<string>)
    ensures acceptedAfter == accepted + Passing(validate, batch)
    ensures failed == Failing(validate, batch)
  {
    acceptedAfter := accepted;
    failed := [];
    var i := 0;
    while i < |batch|
      invariant 0 <= i <= |batch|
      invariant acceptedAfter == accepted + Passing(validate, batch[..i])
      invariant failed == Failing(validate, batch[..i])
    {
      var query := batch[i];
      FilterStep(validate, batch, i);
      if validate(query) {
        assert accepted + (Passing(validate, batch[..i]) + [query]) == acceptedAfter + [query];
        acceptedAfter := acceptedAfter + [query];
      } else {
        failed := failed + [query];
      }
      i := i + 1;
    }
    assert batch[..i] == batch;
  }

  /** The rest of a round's body once the batch is known: check it, and ask for repairs of the
      statements that fail. `err` is the error a thrown repair call ends the run with. */
  method CheckRound(ctx: Context, batch: seq<string>, accepted: seq<string>, callsMade: nat,
                    ghost p: Progress, ghost calls: seq<Call>)
    returns (err: Option<string>, pending: seq<string>, failed: seq<string>, acceptedAfter: seq<string>,
             callsAfter: nat, ghost callsLog: seq<Call>)
    requires accepted == p.accepted && callsMade == |calls|
    ensures err.Some? ==> Check(ctx, p, batch, calls) == Err(err.value)
    ensures err.None? ==> callsAfter == |callsLog|
    ensures err.None? ==>
      Check(ctx, p, batch, calls) == Ok(Progress(p.attempts + 1, pending, failed, acceptedAfter, callsLog, p.batches + [batch]))
  {
    acceptedAfter, failed := ValidateBatch(ctx.validate, batch, accepted);
    pending := batch;
    callsAfter := callsMade;
    callsLog := calls;
    err := None;
    if |failed| > 0 {
      var repaired := ctx.fix(callsMade, failed);
      if repaired.Err? {
        err := Some(repaired.error);
        return;
      }
      pending := repaired.value;
      callsAfter := callsMade + 1;
      callsLog := calls + [Repair(failed)];
    }
  }

  /** One pass of the `do` body on the loop's variables: a fresh batch when none is pending,
      then the check and the repairs. `q` is the state the pass leaves, as `Round` defines it. */
  method PlayRound(ctx: Context, ghost p: Progress, pending: seq<string>, accepted: seq<string>, callsMade: nat)
    returns (err: Option<string>, pendingAfter: seq<string>, failed: seq<string>, acceptedAfter: seq<string>,
             callsAfter: nat, ghost q: Progress)
    requires pending == p.pending && accepted == p.accepted && callsMade == |p.calls|
    ensures err.Some? ==> Round(ctx, p) == Err(err.value)
    ensures err.None? ==> Round(ctx, p) == Ok(q)
    ensures err.None? ==> q.attempts == p.attempts + 1 && q.pending == pendingAfter && q.failed == failed
    ensures err.None? ==> q.accepted == acceptedAfter && |q.calls| == callsAfter
  {
    var batch := pending;
    var made := callsMade;
    ghost var calls := p.calls;
    if |pending| == 0 {
      var generated := ctx.generate(callsMade);
      if generated.Err? {
        return Some(generated.error), pending, [], accepted, callsMade, p;
      }
      batch := generated.value;
      made := made + 1;
      calls := calls + [Generation];
    }
    ghost var callsLog;
    err, pendingAfter, failed, acceptedAfter, callsAfter, callsLog := CheckRound(ctx, batch, accepted, made, p, calls);
    q := Progress(p.attempts + 1, pendingAfter, failed, acceptedAfter, callsLog, p.batches + [batch]);
  }

  /** `getQueries`. */
  method GetQueries(ctx: Context) returns (r: Result<seq<string>>)
    ensures r == Outcome(ctx)
  {
    var acceptedQueries: seq<string> := [];
    var generatedQueries: seq<string> := [];
    var failedQueries: seq<string> := [];
    var attempts: nat := 0;
    var callsMade: nat := 0;
    ghost var p := Start;
    while true
      invariant attempts == p.attempts < MaxAttempts && callsMade == |p.calls|
      invariant generatedQueries == p.pending && failedQueries == p.failed && acceptedQueries == p.accepted
      invariant Run(ctx, Start) == Run(ctx, p)
      decreases MaxAttempts - attempts
    {
      var err: Option<string>;
      ghost var q: Progress;
      err, generatedQueries, failedQueries, acceptedQueries, callsMade, q :=
        PlayRound(ctx, p, generatedQueries, acceptedQueries, callsMade);
      RunAfterRound(ctx, p);
      if err.Some? {
        return Err(err.value);
      }
      attempts := attempts + 1;
      p := q;
      if !(|failedQueries| != 0 && attempts < MaxAttempts) {
        break;
      }
    }
    return Ok(acceptedQueries);
  }

  // ---- what a run promises ----

  /** The statements accepted from a list of batches, batch after batch. */
  function AcceptedFrom(validate: string -> bool, batches: seq<seq<string>>): seq<string>
    decreases |batches|
  {
    if batches == [] then []
    else AcceptedFrom(validate, batches[..|batches| - 1]) + Passing(validate, batches[|batches| - 1])
  }

  function Generations(calls: seq<Call>): nat
    decreases |calls|
  {
    if calls == [] then 0
    else Generations(calls[..|calls| - 1]) + (if calls[|calls| - 1] == Generation then 1 else 0)
  }

  /** The statements handed to each repair call, call by call. */
  function RepairsOf(calls: seq<Call>): seq<seq<string>>
    decreases |calls|
  {
    if calls == [] then []
    else RepairsOf(calls[..|calls| - 1]) + (if calls[|calls| - 1].Repair? then [calls[|calls| - 1].failed] else [])
  }

  /** The failing part of each batch that had failures, batch by batch. */
  function FailuresOf(validate: string -> bool, batches: seq<seq<string>>): seq<seq<string>>
    decreases |batches|
  {
    if batches == [] then []
    else
      var f := Failing(validate, batches[|batches| - 1]);
      FailuresOf(validate, batches[..|batches| - 1]) + (if f != [] then [f] else [])
  }

  lemma {:induction false} CallsCounted(calls: seq<Call>)
    ensures |calls| == Generations(calls) + |RepairsOf(calls)|
    decreases |calls|
  {
    if calls != [] {
      CallsCounted(calls[..|calls| - 1]);
    }
  }

  lemma CallsAppend(calls: seq<Call>, c: Call)
    ensures Generations(calls + [c]) == Generations(calls) + (if c == Generation then 1 else 0)
    ensures RepairsOf(calls + [c]) == RepairsOf(calls) + (if c.Repair? then [c.failed] else [])
  {
    assert (calls + [c])[..|calls|] == calls;
  }

  lemma BatchesAppend(validate: string -> bool, batches: seq<seq<string>>, b: seq<string>)
    ensures AcceptedFrom(validate, batches + [b]) == AcceptedFrom(validate, batches) + Passing(validate, b)
    ensures FailuresOf(validate, batches + [b])
         == FailuresOf(validate, batches) + (if Failing(validate, b) != [] then [Failing(validate, b)] else [])
  {
    assert (batches + [b])[..|batches|] == batches;
  }

  /** What holds between rounds of a run that has not stopped: one batch per round; the
      accepted statements are the passing statements of each batch, in batch order; every
      round but the last had failures; `failed` is the failing part of the last batch; the
      repair calls were given, in order, exactly the failing parts of the batches that had
      failures; and there were between one generation call and one per round. */
  ghost predicate Consistent(validate: string -> bool, p: Progress)
  {
    && |p.batches| == p.attempts
    && p.accepted == AcceptedFrom(validate, p.batches)
    && (forall k :: 0 <= k < |p.batches| - 1 ==> Failing(validate, p.batches[k]) != [])
    && (p.attempts > 0 ==> p.failed == Failing(validate, p.batches[p.attempts - 1]))
    && RepairsOf(p.calls) == FailuresOf(validate, p.batches)
    && (p.attempts > 0 ==> |RepairsOf(p.calls)| == p.attempts - 1 + (if p.failed != [] then 1 else 0))
    && (p.attempts == 0 ==> p.calls == [] && p.pending == [])
    && (p.attempts > 0 ==> 1 <= Generations(p.calls) <= p.attempts)
  }

  /** One round, spelled out: which batch it checks, which calls it makes, and what it
      accepts and rejects. A generation call is made exactly when nothing is pending, and a
      repair call exactly when the batch has failures, with exactly those statements. */
  lemma RoundEffect(ctx: Context, p: Progress)
    requires Round(ctx, p).Ok?
    ensures var q := Round(ctx, p).value;
      var batch := if |p.pending| == 0 then ctx.generate(|p.calls|).value else p.pending;
      var generated := if |p.pending| == 0 then [Generation] else [];
      && (|p.pending| == 0 ==> ctx.generate(|p.calls|).Ok?)
      && q.attempts == p.attempts + 1
      && q.batches == p.batches + [batch]
      && q.accepted == p.accepted + Passing(ctx.validate, batch)
      && q.failed == Failing(ctx.validate, batch)
      && q.calls == p.calls + generated + (if q.failed != [] then [Repair(q.failed)] else [])
      && (q.failed != [] ==> ctx.fix(|p.calls + generated|, q.failed) == Ok(q.pending))
      && (q.failed == [] ==> q.pending == batch)
  {
  }

  /** A round with the effect `RoundEffect` describes keeps the run invariant. */
  lemma StepKeeps(validate: string -> bool, p: Progress, q: Progress, batch: seq<string>, generated: seq<Call>)
    requires Consistent(validate, p)
    requires p.attempts == 0 || p.failed != []
    requires generated == (if |p.pending| == 0 then [Generation] else [])
    requires q.attempts == p.attempts + 1 && q.batches == p.batches + [batch]
    requires q.accepted == p.accepted + Passing(validate, batch) && q.failed == Failing(validate, batch)
    requires q.calls == p.calls + generated + (if q.failed != [] then [Repair(q.failed)] else [])
    ensures Consistent(validate, q)
  {
    StepKeepsBatches(validate, p, q, batch);
    StepKeepsCalls(validate, p, q, batch, generated);
  }

  /** The part of the invariant about the checked batches. */
  lemma StepKeepsBatches(validate: string -> bool, p: Progress, q: Progress, batch: seq<string>)
    requires |p.batches| == p.attempts && p.accepted == AcceptedFrom(validate, p.batches)
    requires forall k :: 0 <= k < |p.batches| - 1 ==> Failing(validate, p.batches[k]) != []
    requires p.attempts > 0 ==> p.failed == Failing(validate, p.batches[p.attempts - 1])
    requires p.attempts == 0 || p.failed != []
    requires q.attempts == p.attempts + 1 && q.batches == p.batches + [batch]
    requires q.accepted == p.accepted + Passing(validate, batch) && q.failed == Failing(validate, batch)
    ensures |q.batches| == q.attempts && q.accepted == AcceptedFrom(validate, q.batches)
    ensures forall k :: 0 <= k < |q.batches| - 1 ==> Failing(validate, q.batches[k]) != []
    ensures q.failed == Failing(validate, q.batches[q.attempts - 1])
  {
    BatchesAppend(validate, p.batches, batch);
    FailuresBeforeLast(validate, p.batches, batch);
    assert q.batches[q.attempts - 1] == batch;
  }

  /** When every batch so far had failures, every batch but the new last one had failures. */
  lemma FailuresBeforeLast(validate: string -> bool, batches: seq<seq<string>>, batch: seq<string>)
    requires forall k :: 0 <= k < |batches| - 1 ==> Failing(validate, batches[k]) != []
    requires batches != [] ==> Failing(validate, batches[|batches| - 1]) != []
    ensures forall k :: 0 <= k < |batches + [batch]| - 1 ==> Failing(validate, (batches + [batch])[k]) != []
  {
    forall k | 0 <= k < |batches + [batch]| - 1
      ensures Failing(validate, (batches + [batch])[k]) != []
    {
      assert (batches + [batch])[k] == batches[k];
      if k < |batches| - 1 {
        assert Failing(validate, batches[k]) != [];
      }
    }
  }

  /** The part of the invariant about the calls made. */
  lemma StepKeepsCalls(validate: string -> bool, p: Progress, q: Progress, batch: seq<string>, generated: seq<Call>)
    requires |p.batches| == p.attempts
    requires RepairsOf(p.calls) == FailuresOf(validate, p.batches)
    requires p.attempts > 0 ==> |RepairsOf(p.calls)| == p.attempts - 1 + (if p.failed != [] then 1 else 0)
    requires p.attempts == 0 ==> p.calls == [] && p.pending == []
    requires p.attempts > 0 ==> 1 <= Generations(p.calls) <= p.attempts
    requires p.attempts == 0 || p.failed != []
    requires generated == (if |p.pending| == 0 then [Generation] else [])
    requires q.attempts == p.attempts + 1 && q.batches == p.batches + [batch] && q.failed == Failing(validate, batch)
    requires q.calls == p.calls + generated + (if q.failed != [] then [Repair(q.failed)] else [])
    ensures RepairsOf(q.calls) == FailuresOf(validate, q.batches)
    ensures |RepairsOf(q.calls)| == q.attempts - 1 + (if q.failed != [] then 1 else 0)
    ensures 1 <= Generations(q.calls) <= q.attempts
  {
    BatchesAppend(validate, p.batches, batch);
    var mid := p.calls + generated;
    assert |RepairsOf(p.calls)| == p.attempts;
    if |p.pending| == 0 {
      CallsAppend(p.calls, Generation);
    } else {
      assert mid == p.calls;
    }
    assert RepairsOf(mid) == RepairsOf(p.calls);
    if q.failed != [] {
      CallsAppend(mid, Repair(q.failed));
      assert q.calls == mid + [Repair(q.failed)];
    } else {
      assert q.calls == mid;
    }
  }

  lemma RoundKeeps(ctx: Context, p: Progress)
    requires Consistent(ctx.validate, p)
    requires p.attempts == 0 || p.failed != []
    requires Round(ctx, p).Ok?
    ensures Consistent(ctx.validate, Round(ctx, p).value)
  {
    var q := Round(ctx, p).value;
    RoundEffect(ctx, p);
    StepKeeps(ctx.validate, p, q, q.batches[|q.batches| - 1], if |p.pending| == 0 then [Generation] else []);
  }

  lemma {:induction false} RunKeeps(ctx: Context, p: Progress)
    requires p.attempts < MaxAttempts
    requires Consistent(ctx.validate, p)
    requires p.attempts == 0 || p.failed != []
    ensures Run(ctx, p).Ok? ==>
      var q := Run(ctx, p).value;
      Consistent(ctx.validate, q) && p.attempts < q.attempts <= MaxAttempts
      && (q.failed == [] || q.attempts == MaxAttempts)
    decreases MaxAttempts - p.attempts
  {
    RunAfterRound(ctx, p);
    if Round(ctx, p).Ok? {
      var q := Round(ctx, p).value;
      RoundKeeps(ctx, p);
      RoundEffect(ctx, p);
      if |q.failed| != 0 && q.attempts < MaxAttempts {
        RunKeeps(ctx, q);
      }
    }
  }

  /** The properties of `getQueries` on every input, when it returns: between one and three
      rounds ran; every returned statement passed the check; the result is the passing part
      of each checked batch, in round order, duplicates kept; the run stopped at the first
      round without failures, or after the third; the repair calls were given, in order,
      exactly the failing statements of each round that had failures — the third round too,
      whose repair is then discarded; and at most six calls were made, between one and three
      of them generations. */
  lemma GetQueriesReturns(ctx: Context)
    requires Run(ctx, Start).Ok?
    ensures var q := Run(ctx, Start).value;
      && 1 <= q.attempts <= MaxAttempts && |q.batches| == q.attempts
      && Outcome(ctx) == Ok(q.accepted)
      && (forall s <- q.accepted :: ctx.validate(s))
      && q.accepted == AcceptedFrom(ctx.validate, q.batches)
      && (q.failed == [] || q.attempts == MaxAttempts)
      && (forall k :: 0 <= k < |q.batches| - 1 ==> Failing(ctx.validate, q.batches[k]) != [])
      && q.failed == Failing(ctx.validate, q.batches[q.attempts - 1])
      && RepairsOf(q.calls) == FailuresOf(ctx.validate, q.batches)
      && |RepairsOf(q.calls)| == q.attempts - 1 + (if q.failed != [] then 1 else 0)
      && 1 <= Generations(q.calls) <= q.attempts && |q.calls| <= 2 * MaxAttempts
  {
    RunKeeps(ctx, Start);
    var q := Run(ctx, Start).value;
    CallsCounted(q.calls);
    AcceptedSound(ctx.validate, q.batches);
  }

  lemma {:induction false} AcceptedSound(validate: string -> bool, batches: seq<seq<string>>)
    ensures forall s <- AcceptedFrom(validate, batches) :: validate(s)
    decreases |batches|
  {
    if batches != [] {
      AcceptedSound(validate, batches[..|batches| - 1]);
      FilterSound(validate, batches[|batches| - 1]);
    }
  }

  /** `getQueries` throws only what one of its calls threw. */
  lemma {:induction false} ErrorsComeFromCalls(ctx: Context, p: Progress)
    requires p.attempts < MaxAttempts
    ensures Run(ctx, p).Err? ==>
      (exists n :: ctx.generate(n) == Err(Run(ctx, p).error))
      || (exists n, failed :: ctx.fix(n, failed) == Err(Run(ctx, p).error))
    decreases MaxAttempts - p.attempts
  {
    RunAfterRound(ctx, p);
    if Round(ctx, p).Ok? {
      var q := Round(ctx, p).value;
      if |q.failed| != 0 && q.attempts < MaxAttempts {
        ErrorsComeFromCalls(ctx, q);
      }
    } else if |p.pending| == 0 && ctx.generate(|p.calls|).Err? {
      assert ctx.generate(|p.calls|) == Err(Run(ctx, p).error);
    } else {
      var batch := if |p.pending| == 0 then ctx.generate(|p.calls|).value else p.pending;
      var calls := if |p.pending| == 0 then p.calls + [Generation] else p.calls;
      assert ctx.fix(|calls|, Failing(ctx.validate, batch)) == Err(Run(ctx, p).error);
    }
  }

  /** A round over a batch of one statement. */
  lemma CheckSingle(ctx: Context, p: Progress, s: string, calls: seq<Call>)
    ensures ctx.validate(s) ==>
      Check(ctx, p, [s], calls) == Ok(Progress(p.attempts + 1, [s], [], p.accepted + [s], calls, p.batches + [[s]]))
    ensures !ctx.validate(s) && ctx.fix(|calls|, [s]).Ok? ==>
      Check(ctx, p, [s], calls)
      == Ok(Progress(p.attempts + 1, ctx.fix(|calls|, [s]).value, [s], p.accepted, calls + [Repair([s])], p.batches + [[s]]))
  {
    FilterSingle(ctx.validate, s);
    assert p.accepted + [] == p.accepted;
  }

  /** A batch of one statement passes or fails as that statement does. */
  lemma FilterSingle(validate: string -> bool, s: string)
    ensures Passing(validate, [s]) == (if validate(s) then [s] else [])
    ensures Failing(validate, [s]) == (if validate(s) then [] else [s])
  {
    FilterStep(validate, [s], 0);
    assert [s][..1] == [s] && [s][..0] == [];
    assert [] + [s] == [s];
  }

  /** A statement that never passes, offered again by every call: three rounds, one
      generation and three repairs, the last of them discarded, and nothing returned. */
  lemma AlwaysRejected(ctx: Context, s: string)
    requires forall n :: ctx.generate(n) == Ok([s])
    requires forall n, failed :: ctx.fix(n, failed) == Ok([s])
    requires !ctx.validate(s)
    ensures Run(ctx, Start) == Ok(Progress(3, [s], [s], [], [Generation, Repair([s]), Repair([s]), Repair([s])], [[s], [s], [s]]))
    ensures Outcome(ctx) == Ok([])
  {
    var p1 := Progress(1, [s], [s], [], [Generation, Repair([s])], [[s]]);
    var p2 := Progress(2, [s], [s], [], [Generation, Repair([s]), Repair([s])], [[s], [s]]);
    var p3 := Progress(3, [s], [s], [], [Generation, Repair([s]), Repair([s]), Repair([s])], [[s], [s], [s]]);
    assert Start.pending == [] && Start.accepted == [] && Start.calls + [Generation] == [Generation];
    assert [Generation] + [Repair([s])] == p1.calls && p1.calls + [Repair([s])] == p2.calls && p2.calls + [Repair([s])] == p3.calls;
    assert Start.batches + [[s]] == p1.batches && p1.batches + [[s]] == p2.batches && p2.batches + [[s]] == p3.batches;
    CheckSingle(ctx, Start, s, [Generation]);
    CheckSingle(ctx, p1, s, p1.calls);
    CheckSingle(ctx, p2, s, p2.calls);
    RunAfterRound(ctx, Start);
    RunAfterRound(ctx, p1);
    RunAfterRound(ctx, p2);
  }

  /** A repair that yields no statements leaves nothing pending, so the next round generates
      afresh. */
  lemma EmptyRepairRegenerates(ctx: Context, bad: string, good: string)
    requires ctx.generate(0) == Ok([bad]) && ctx.fix(1, [bad]) == Ok([]) && ctx.generate(2) == Ok([good])
    requires !ctx.validate(bad) && ctx.validate(good)
    ensures Run(ctx, Start) == Ok(Progress(2, [good], [], [good], [Generation, Repair([bad]), Generation], [[bad], [good]]))
    ensures Outcome(ctx) == Ok([good])
  {
    var p1 := Progress(1, [], [bad], [], [Generation, Repair([bad])], [[bad]]);
    var p2 := Progress(2, [good], [], [good], [Generation, Repair([bad]), Generation], [[bad], [good]]);
    RejectedThenEmpty(ctx, bad);
    AcceptedAfterEmpty(ctx, bad, good);
    RunAfterRound(ctx, Start);
    RunAfterRound(ctx, p1);
  }

  /** The first round of `EmptyRepairRegenerates`: the generated statement fails and its repair
      yields nothing. */
  lemma RejectedThenEmpty(ctx: Context, bad: string)
    requires ctx.generate(0) == Ok([bad]) && ctx.fix(1, [bad]) == Ok([]) && !ctx.validate(bad)
    ensures Round(ctx, Start) == Ok(Progress(1, [], [bad], [], [Generation, Repair([bad])], [[bad]]))
  {
    assert Start.pending == [] && Start.accepted == [] && Start.calls + [Generation] == [Generation];
    assert [Generation] + [Repair([bad])] == [Generation, Repair([bad])];
    assert Start.batches + [[bad]] == [[bad]];
    CheckSingle(ctx, Start, bad, [Generation]);
  }

  /** The second round of `EmptyRepairRegenerates`: nothing is pending, so it generates, and the
      new statement passes. */
  lemma AcceptedAfterEmpty(ctx: Context, bad: string, good: string)
    requires ctx.generate(2) == Ok([good]) && ctx.validate(good)
    ensures var p1 := Progress(1, [], [bad], [], [Generation, Repair([bad])], [[bad]]);
      Round(ctx, p1) == Ok(Progress(2, [good], [], [good], [Generation, Repair([bad]), Generation], [[bad], [good]]))
  {
    var p1 := Progress(1, [], [bad], [], [Generation, Repair([bad])], [[bad]]);
    assert p1.calls + [Generation] == [Generation, Repair([bad]), Generation];
    assert p1.batches + [[good]] == [[bad], [good]];
    assert p1.accepted + [good] == [good];
    CheckSingle(ctx, p1, good, p1.calls + [Generation]);
  }

  /** Wired to the completion service, `getQueries` throws only errors whose text starts with
      the generation or the repair prefix. */
  lemma ConnectedErrors(service: Completion.Service, validate: string -> bool,
                        apiKey: string, prompt: string, history: seq<ChatMessage>)
    ensures var r := Outcome(Connect(service, validate, apiKey, prompt, history));
      r.Err? ==>
        (|Completion.GeneratePrefix| <= |r.error| && r.error[..|Completion.GeneratePrefix|] == Completion.GeneratePrefix)
        || (|Completion.FixPrefix| <= |r.error| && r.error[..|Completion.FixPrefix|] == Completion.FixPrefix)
  {
    var ctx := Connect(service, validate, apiKey, prompt, history);
    ErrorsComeFromCalls(ctx, Start);
    if Run(ctx, Start).Err? {
      var e := Run(ctx, Start).error;
      if n :| ctx.generate(n) == Err(e) {
        assert Completion.GenerateQueries(service, n, apiKey, prompt, history) == Err(e);
      } else {
        var n, failed :| ctx.fix(n, failed) == Err(e);
        assert Completion.FixQueries(service, n, apiKey, prompt, failed) == Err(e);
      }
    }
  }
}
