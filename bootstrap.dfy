/**
 * Bootstrapping the control connection: `connect_to_first_available` walks the
 * plan of candidate hosts in order, and `connect_to_host` retries one host at a
 * lower protocol version whenever the server reports an unsupported version.
 * The connector's pipeline is an oracle `outcome(host, version)`.
 */
module Bootstrap {
  import opened Wrappers
  import opened Hosts

  /** The server error code for "unsupported protocol version". */
  const UnsupportedVersionCode: int := 0x0a

  /** What a failed pipeline raised: a server `QueryError` with its code, or anything else. */
  datatype ConnError = QueryError(code: int, message: string) | OtherError(message: string)

  /** One run of the connector's pipeline against one host at one protocol version. */
  datatype Attempt = Connected | Failed(error: ConnError)

  /** The pipeline of `Client::Connector`, seen from outside. */
  type Oracle = (Address, int) -> Attempt

  /** A live connection, remembering the host and the protocol version it was opened with. */
  datatype Connection = Connection(host: Address, protocolVersion: int)

  /** The failure `connect_to_host` recovers from by retrying at the next lower version. */
  predicate Downgradable(e: ConnError, version: int)
  {
    e.QueryError? && e.code == UnsupportedVersionCode && version > 1
  }

  /** The outcome of `connect_to_host` and the protocol version left in the settings afterwards. */
  datatype HostRun = HostRun(result: Result<Connection, ConnError>, version: int)

  /**
   * `connect_to_host(h)` starting at protocol version `v`. The result is the pipeline's
   * answer at the final version; a failure is never one that could still be downgraded;
   * and the version only drops, never below 1 when it started at 1 or more.
   */
  function TryHost(h: Address, v: int, outcome: Oracle): (r: HostRun)
    ensures r.version <= v
    ensures v >= 1 ==> r.version >= 1
    ensures v < 1 ==> r.version == v
    ensures r.result.Ok? ==> outcome(h, r.version) == Connected && r.result.value == Connection(h, r.version)
    ensures r.result.Err? ==>
      outcome(h, r.version) == Failed(r.result.error) && !Downgradable(r.result.error, r.version)
    decreases if v > 1 then v else 0
  {
    match outcome(h, v)
    case Connected => HostRun(Ok(Connection(h, v)), v)
    case Failed(e) =>
      if Downgradable(e, v) then TryHost(h, v - 1, outcome) else HostRun(Err(e), v)
  }

  /** Every version above the one `connect_to_host` ends at, down from where it started, was refused as unsupported. */
  lemma {:induction false} RefusedAboveFinalVersion(h: Address, v: int, outcome: Oracle, w: int)
    requires TryHost(h, v, outcome).version < w <= v
    ensures outcome(h, w).Failed? && Downgradable(outcome(h, w).error, w)
    decreases if v > 1 then v else 0
  {
    if w < v {
      RefusedAboveFinalVersion(h, v - 1, outcome, w);
    }
  }

  /** One entry of the `errors` hash: the host and what its pipeline raised. */
  datatype HostError = HostError(host: Address, error: ConnError)

  /** The keys of an error log, in insertion order. */
  function Keys(log: seq<HostError>): (ks: seq<Address>)
    ensures |ks| == |log|
    ensures forall i :: 0 <= i < |log| ==> ks[i] == log[i].host
  {
    seq(|log|, i requires 0 <= i < |log| => log[i].host)
  }

  /**
   * `errors[h] = error` on an insertion-ordered Ruby hash: a new key goes last,
   * an existing key keeps its place and takes the new value.
   */
  function Store(log: seq<HostError>, h: Address, e: ConnError): (r: seq<HostError>)
    ensures h !in Keys(log) ==> r == log + [HostError(h, e)]
    decreases |log|
  {
    if log == [] then [HostError(h, e)]
    else if log[0].host == h then [HostError(h, e)] + log[1..]
    else
      KeysCons(log[0], log[1..]);
      [log[0]] + Store(log[1..], h, e)
  }

  /**
   * Storing under a key already present keeps every key in its place and every other
   * entry as it was, and the key now holds the new error.
   */
  lemma {:induction false} StoreKnownKey(log: seq<HostError>, h: Address, e: ConnError)
    requires h in Keys(log)
    ensures var r := Store(log, h, e);
      && |r| == |log|
      && Keys(r) == Keys(log)
      && (forall i :: 0 <= i < |log| && log[i].host != h ==> r[i] == log[i])
      && HostError(h, e) in r
    decreases |log|
  {
    var r := Store(log, h, e);
    KeysCons(log[0], log[1..]);
    if log[0].host == h {
      KeysCons(HostError(h, e), log[1..]);
    } else {
      var rest := Store(log[1..], h, e);
      StoreKnownKey(log[1..], h, e);
      KeysCons(log[0], rest);
      forall i | 0 <= i < |log| && log[i].host != h
        ensures r[i] == log[i]
      {
        if i > 0 {
          assert r[i] == rest[i - 1] && log[i] == log[1..][i - 1];
        }
      }
    }
  }

  /** The keys of a log with one more entry in front. */
  lemma KeysCons(x: HostError, log: seq<HostError>)
    ensures Keys([x] + log) == [x.host] + Keys(log)
  {
  }

  /** The keys of a log with one more entry at the end. */
  lemma KeysSnoc(log: seq<HostError>, x: HostError)
    ensures Keys(log + [x]) == Keys(log) + [x.host]
  {
  }

  /** In a sequence without repeats, the first element of the second part does not occur in the first. */
  lemma DistinctHead(a: seq<Address>, b: seq<Address>)
    requires b != [] && Distinct(a + b)
    ensures b[0] !in a
  {
    var all := a + b;
    assert all[|a|] == b[0];
    forall i | 0 <= i < |a| ensures a[i] != b[0] {
      assert all[i] == a[i];
    }
  }

  /** The outcome of `connect_to_first_available`, the error hash at that point, and the final version. */
  datatype ConnectRun = ConnectRun(result: Result<Connection, seq<HostError>>, log: seq<HostError>, version: int)

  /**
   * `connect_to_first_available(plan, log)` with protocol version `v`: try the hosts in
   * order, record each failure, stop at the first success; an exhausted plan fails with
   * `NoHostsAvailable` carrying the error hash. The version only ever drops, and never
   * below 1 when it started at 1 or more.
   */
  function FirstAvailable(plan: seq<Address>, v: int, log: seq<HostError>, outcome: Oracle): (r: ConnectRun)
    ensures r.version <= v
    ensures v >= 1 ==> r.version >= 1
    ensures r.result.Ok? ==> r.result.value.host in plan
    decreases |plan|
  {
    if plan == [] then ConnectRun(Err(log), log, v)
    else
      var a := TryHost(plan[0], v, outcome);
      if a.result.Ok? then ConnectRun(Ok(a.result.value), log, a.version)
      else FirstAvailable(plan[1..], a.version, Store(log, plan[0], a.result.error), outcome)
  }

  /** No address occurs twice. */
  predicate Distinct(s: seq<Address>)
  {
    forall i, j :: 0 <= i < j < |s| ==> s[i] != s[j]
  }

  /**
   * Recording the first candidate's failure moves it from the plan to the end of the
   * error hash: the error keys followed by the untried plan are the same sequence.
   */
  lemma RecordFirst(plan: seq<Address>, log: seq<HostError>, e: ConnError)
    requires plan != [] && Distinct(Keys(log) + plan)
    ensures Store(log, plan[0], e) == log + [HostError(plan[0], e)]
    ensures Keys(Store(log, plan[0], e)) == Keys(log) + [plan[0]]
    ensures Keys(Store(log, plan[0], e)) + plan[1..] == Keys(log) + plan
  {
    DistinctHead(Keys(log), plan);
    KeysSnoc(log, HostError(plan[0], e));
    assert [plan[0]] + plan[1..] == plan;
  }

  /**
   * When every candidate fails, the error hash gains exactly one entry per candidate,
   * in the order they were tried (the plan of a Ruby hash's keys has no repeats).
   */
  lemma {:induction false} ExhaustedPlanErrors(plan: seq<Address>, v: int, log: seq<HostError>, outcome: Oracle)
    requires Distinct(Keys(log) + plan)
    requires FirstAvailable(plan, v, log, outcome).result.Err?
    ensures Keys(FirstAvailable(plan, v, log, outcome).result.error) == Keys(log) + plan
    decreases |plan|
  {
    if plan != [] {
      var a := TryHost(plan[0], v, outcome);
      var log' := Store(log, plan[0], a.result.error);
      assert FirstAvailable(plan, v, log, outcome) == FirstAvailable(plan[1..], a.version, log', outcome);
      RecordFirst(plan, log, a.result.error);
      ExhaustedPlanErrors(plan[1..], a.version, log', outcome);
    }
  }

  /**
   * `e` is what the pipeline raised for `h` at some version no higher than `v`, and it is
   * not a failure `connect_to_host` would have retried lower.
   */
  ghost predicate RaisedBy(h: Address, e: ConnError, v: int, outcome: Oracle)
  {
    exists w :: w <= v && outcome(h, w) == Failed(e) && !Downgradable(e, w)
  }

  /**
   * When every candidate fails, the error hash is the old one followed by one entry per
   * candidate, and each entry holds the error that candidate's own pipeline raised.
   */
  lemma {:induction false} ExhaustedPlanErrorValues(plan: seq<Address>, v: int, log: seq<HostError>, outcome: Oracle)
    requires Distinct(Keys(log) + plan)
    requires FirstAvailable(plan, v, log, outcome).result.Err?
    ensures var es := FirstAvailable(plan, v, log, outcome).result.error;
      && |es| == |log| + |plan|
      && es[..|log|] == log
      && forall i :: 0 <= i < |plan| ==>
           es[|log| + i].host == plan[i] && RaisedBy(plan[i], es[|log| + i].error, v, outcome)
    decreases |plan|
  {
    if plan != [] {
      var a := TryHost(plan[0], v, outcome);
      var e := a.result.error;
      var log' := Store(log, plan[0], e);
      assert FirstAvailable(plan, v, log, outcome) == FirstAvailable(plan[1..], a.version, log', outcome);
      RecordFirst(plan, log, e);
      ExhaustedPlanErrorValues(plan[1..], a.version, log', outcome);
      var es := FirstAvailable(plan, v, log, outcome).result.error;
      ErrorValuesStep(plan, v, log, log', es, a.version, e, outcome);
    }
  }

  /** The inductive step of `ExhaustedPlanErrorValues`, over plain sequences. */
  lemma ErrorValuesStep(plan: seq<Address>, v: int, log: seq<HostError>, log': seq<HostError>, es: seq<HostError>,
                        u: int, e: ConnError, outcome: Oracle)
    requires plan != [] && u <= v
    requires outcome(plan[0], u) == Failed(e) && !Downgradable(e, u)
    requires log' == log + [HostError(plan[0], e)]
    requires |es| == |log'| + |plan[1..]|
    requires es[..|log'|] == log'
    requires forall i :: 0 <= i < |plan[1..]| ==>
      es[|log'| + i].host == plan[1..][i] && RaisedBy(plan[1..][i], es[|log'| + i].error, u, outcome)
    ensures |es| == |log| + |plan|
    ensures es[..|log|] == log
    ensures forall i :: 0 <= i < |plan| ==>
      es[|log| + i].host == plan[i] && RaisedBy(plan[i], es[|log| + i].error, v, outcome)
  {
    assert es[..|log|] == es[..|log'|][..|log|];
    assert es[|log|] == es[..|log'|][|log|];
    forall i | 0 <= i < |plan|
      ensures es[|log| + i].host == plan[i] && RaisedBy(plan[i], es[|log| + i].error, v, outcome)
    {
      if i == 0 {
        assert outcome(plan[0], u) == Failed(e);
      } else {
        assert es[|log| + i] == es[|log'| + (i - 1)];
        assert plan[1..][i - 1] == plan[i];
      }
    }
  }

  /** Moving the head of the plan onto the tried keys leaves the tried-then-prefix sequence unchanged. */
  lemma PrefixShift(tried: seq<Address>, plan: seq<Address>, j: nat)
    requires j < |plan| - 1
    ensures tried + [plan[0]] + plan[1..][..j] == tried + plan[..j + 1]
  {
    assert [plan[0]] + plan[1..][..j] == plan[..j + 1];
  }

  /**
   * A successful connection is to some candidate `plan[k]`; every candidate before it
   * was tried, failed and entered the error hash, in order.
   */
  lemma {:induction false} SuccessAfterFailures(plan: seq<Address>, v: int, log: seq<HostError>, outcome: Oracle)
    returns (k: nat)
    requires Distinct(Keys(log) + plan)
    requires FirstAvailable(plan, v, log, outcome).result.Ok?
    ensures var r := FirstAvailable(plan, v, log, outcome);
      k < |plan| && r.result.value.host == plan[k] && Keys(r.log) == Keys(log) + plan[..k]
    decreases |plan|
  {
    var a := TryHost(plan[0], v, outcome);
    if a.result.Ok? {
      k := 0;
    } else {
      var log' := Store(log, plan[0], a.result.error);
      assert FirstAvailable(plan, v, log, outcome) == FirstAvailable(plan[1..], a.version, log', outcome);
      RecordFirst(plan, log, a.result.error);
      var j := SuccessAfterFailures(plan[1..], a.version, log', outcome);
      k := j + 1;
      PrefixShift(Keys(log), plan, j);
    }
  }

  /** Candidates after the first success are never tried: appending more of them changes nothing. */
  lemma {:induction false} StopsAtFirstSuccess(plan: seq<Address>, more: seq<Address>, v: int, log: seq<HostError>, outcome: Oracle)
    requires FirstAvailable(plan, v, log, outcome).result.Ok?
    ensures FirstAvailable(plan + more, v, log, outcome) == FirstAvailable(plan, v, log, outcome)
    decreases |plan|
  {
    assert plan != [];
    assert (plan + more)[0] == plan[0];
    var a := TryHost(plan[0], v, outcome);
    if a.result.Err? {
      assert (plan + more)[1..] == plan[1..] + more;
      StopsAtFirstSuccess(plan[1..], more, a.version, Store(log, plan[0], a.result.error), outcome);
    }
  }

  /** The downgrade is global: a later host is tried at the version the earlier ones left behind. */
  lemma NextHostStartsAtLoweredVersion(plan: seq<Address>, v: int, log: seq<HostError>, outcome: Oracle)
    requires plan != []
    requires TryHost(plan[0], v, outcome).result.Err?
    ensures var a := TryHost(plan[0], v, outcome);
      FirstAvailable(plan, v, log, outcome) ==
      FirstAvailable(plan[1..], a.version, Store(log, plan[0], a.result.error), outcome)
  {
  }

  /** A server that refuses versions 4 and 3 as unsupported but accepts 2. */
  function AcceptsUpToTwo(h: Address, v: int): Attempt
  {
    if v > 2 then Failed(QueryError(UnsupportedVersionCode, "unsupported protocol version")) else Connected
  }

  /** Starting at version 4 against that server, the connection is made at version 2 and the settings keep 2. */
  lemma DowngradeExample(h: Address)
    ensures FirstAvailable([h], 4, [], AcceptsUpToTwo) == ConnectRun(Ok(Connection(h, 2)), [], 2)
  {
    assert TryHost(h, 2, AcceptsUpToTwo) == HostRun(Ok(Connection(h, 2)), 2);
    assert TryHost(h, 3, AcceptsUpToTwo) == HostRun(Ok(Connection(h, 2)), 2);
    assert TryHost(h, 4, AcceptsUpToTwo) == HostRun(Ok(Connection(h, 2)), 2);
  }
}
