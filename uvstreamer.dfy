/**
 * The orchestrator state of `uvstreamer` and the transitions defined in
 * uvstreamer.go, as functions from the old state to the new state and the Go
 * `error` returned. The class in streamer.dfy performs the same transitions in
 * place and is proved equal to these functions; the lemmas here state what the
 * transitions promise.
 *
 * The consumer's `send` is modelled by a log and a script of replies: every call
 * appends the batch to `sent`, tagged with the path that made the call, and the
 * k-th call returns `replies[k]` (nil once the script is exhausted).
 */
module Uvstreamer {
  import opened Wrappers
  import opened Mysql
  import opened Sqltypes
  import opened Binlogdata
  import opened Strings

  /** A `tablePlan`: the copy cursor (nil for a table not being copied) and its rule. */
  datatype TablePlan = TablePlan(tablePK: Option<TableLastPK>, rule: Rule)

  /**
   * Who handed a batch to the consumer's send: the streamer itself, the
   * filtering pipeline `send2` (catch-up and fast-forward readers), or the
   * final replication reader, which is given the plain `send`.
   */
  datatype Path = Direct | Pipeline | Replication

  datatype SendCall = SendCall(path: Path, events: seq<VEvent>)

  /** An external reader started by the streamer, with the arguments it was given. */
  datatype ReaderCall =
    | LiveTail(startPos: string, stopPos: string)
    | RowSnapshot(tableName: string, filter: string, lastPK: Option<seq<Value>>)

  datatype State = State(
    startPos: string,
    plans: map<string, TablePlan>,
    tablesToCopy: seq<string>,
    fields: Option<seq<Field>>,
    pkfields: seq<Field>,
    pos: Position,
    stopPos: Position,
    sent: seq<SendCall>,
    readers: seq<ReaderCall>,
    replies: seq<Outcome>)

  /** The state after an operation and the error it returned. */
  datatype Step = Step(st: State, out: Outcome)

  /**
   * The queue/plan invariant: the queue is sorted, has no repeats, and holds
   * exactly the tables whose plan carries a TableLastPK for that table.
   */
  predicate Valid(s: State)
  {
    && Sorted(s.tablesToCopy)
    && NoDuplicates(s.tablesToCopy)
    && (forall t :: t in s.tablesToCopy ==>
          t in s.plans && s.plans[t].tablePK.Some? && s.plans[t].tablePK.value.tableName == t)
    && (forall t :: t in s.plans && s.plans[t].tablePK.Some? ==> t in s.tablesToCopy)
  }

  // ---------------------------------------------------------------------------
  // Construction (newUVStreamer)

  function RuleMatches(rules: seq<Rule>): set<string>
  {
    if rules == [] then {} else {rules[0].tableMatch} + RuleMatches(rules[1..])
  }

  /** The names of the TableLastPKs, in order. */
  function TableNames(pks: seq<TableLastPK>): (names: seq<string>)
    ensures |names| == |pks|
    ensures forall i :: 0 <= i < |pks| ==> names[i] == pks[i].tableName
  {
    seq(|pks|, i requires 0 <= i < |pks| => pks[i].tableName)
  }

  /** The first loop of newUVStreamer: one plan without a cursor per rule, later rules winning. */
  function AddRules(plans: map<string, TablePlan>, rules: seq<Rule>): map<string, TablePlan>
    decreases |rules|
  {
    if rules == [] then plans
    else AddRules(plans[rules[0].tableMatch := TablePlan(None, rules[0])], rules[1..])
  }

  /** The second loop of newUVStreamer: attach each TableLastPK to its table's plan. */
  function AddTablePKs(plans: map<string, TablePlan>, pks: seq<TableLastPK>): map<string, TablePlan>
    requires forall pk :: pk in pks ==> pk.tableName in plans
    decreases |pks|
  {
    if pks == [] then plans
    else
      var name := pks[0].tableName;
      AddTablePKs(plans[name := plans[name].(tablePK := Some(pks[0]))], pks[1..])
  }

  /**
   * newUVStreamer. Plans and queue are built only when some TableLastPK is
   * given; every TableLastPK must name the Match of some rule (the source
   * dereferences a nil plan otherwise).
   */
  function NewState(startPos: string, rules: seq<Rule>, pks: seq<TableLastPK>, replies: seq<Outcome>): State
    requires forall pk :: pk in pks ==> pk.tableName in RuleMatches(rules)
  {
    AddRulesFacts(map[], rules);
    var plans := if |pks| > 0 then AddTablePKs(AddRules(map[], rules), pks) else map[];
    var queue := if |pks| > 0 then SortStrings(TableNames(pks)) else [];
    State(startPos, plans, queue, None, [], Zero, Zero, [], [], replies)
  }

  lemma {:induction false} AddRulesFacts(plans: map<string, TablePlan>, rules: seq<Rule>)
    ensures AddRules(plans, rules).Keys == plans.Keys + RuleMatches(rules)
    ensures forall t :: t in RuleMatches(rules) ==>
              AddRules(plans, rules)[t].tablePK.None? && AddRules(plans, rules)[t].rule in rules
              && AddRules(plans, rules)[t].rule.tableMatch == t
    ensures forall t :: t in plans && t !in RuleMatches(rules) ==> AddRules(plans, rules)[t] == plans[t]
    decreases |rules|
  {
    if rules != [] {
      var next := plans[rules[0].tableMatch := TablePlan(None, rules[0])];
      AddRulesFacts(next, rules[1..]);
      assert rules == [rules[0]] + rules[1..];
      assert RuleMatches(rules) == {rules[0].tableMatch} + RuleMatches(rules[1..]);
    }
  }

  lemma {:induction false} AddTablePKsFacts(plans: map<string, TablePlan>, pks: seq<TableLastPK>)
    requires forall pk :: pk in pks ==> pk.tableName in plans
    ensures AddTablePKs(plans, pks).Keys == plans.Keys
    ensures forall t :: t in plans ==> AddTablePKs(plans, pks)[t].rule == plans[t].rule
    ensures forall t :: t in plans && t !in TableNames(pks) ==> AddTablePKs(plans, pks)[t] == plans[t]
    ensures forall t :: t in TableNames(pks) ==>
              AddTablePKs(plans, pks)[t].tablePK.Some? && AddTablePKs(plans, pks)[t].tablePK.value.tableName == t
    decreases |pks|
  {
    if pks != [] {
      var name := pks[0].tableName;
      var next := plans[name := plans[name].(tablePK := Some(pks[0]))];
      assert forall pk :: pk in pks[1..] ==> pk in pks;
      AddTablePKsFacts(next, pks[1..]);
      assert TableNames(pks) == [name] + TableNames(pks[1..]);
    }
  }

  /** With no repeated table names, every TableLastPK ends up in its own table's plan. */
  lemma {:induction false} AddTablePKsCursors(plans: map<string, TablePlan>, pks: seq<TableLastPK>)
    requires forall pk :: pk in pks ==> pk.tableName in plans
    requires NoDuplicates(TableNames(pks))
    ensures forall i :: 0 <= i < |pks| ==>
              pks[i].tableName in AddTablePKs(plans, pks) && AddTablePKs(plans, pks)[pks[i].tableName].tablePK == Some(pks[i])
    decreases |pks|
  {
    AddTablePKsFacts(plans, pks);
    if pks != [] {
      var name := pks[0].tableName;
      var next := plans[name := plans[name].(tablePK := Some(pks[0]))];
      assert forall pk :: pk in pks[1..] ==> pk in pks;
      TableNamesTail(pks);
      AddTablePKsFacts(next, pks[1..]);
      AddTablePKsCursors(next, pks[1..]);
      forall i | 0 <= i < |pks|
        ensures pks[i].tableName in AddTablePKs(plans, pks) && AddTablePKs(plans, pks)[pks[i].tableName].tablePK == Some(pks[i])
      {
        assert pks[i] in pks;
        if i > 0 {
          assert pks[i] == pks[1..][i - 1];
        }
      }
    }
  }

  /** Distinct names stay distinct without the head, and the head's name is not among the rest. */
  lemma TableNamesTail(pks: seq<TableLastPK>)
    requires pks != [] && NoDuplicates(TableNames(pks))
    ensures NoDuplicates(TableNames(pks[1..])) && pks[0].tableName !in TableNames(pks[1..])
  {
    var rest := TableNames(pks[1..]);
    var names := TableNames(pks);
    forall i, j | 0 <= i < j < |rest| ensures rest[i] != rest[j] {
      assert names[i + 1] != names[j + 1];
    }
    forall j | 0 <= j < |rest| ensures rest[j] != pks[0].tableName {
      assert names[0] != names[j + 1];
    }
  }

  /** Construction: the queue is the sorted list of the TableLastPK names, and nothing has happened yet. */
  lemma NewStateQueue(startPos: string, rules: seq<Rule>, pks: seq<TableLastPK>, replies: seq<Outcome>)
    requires forall pk :: pk in pks ==> pk.tableName in RuleMatches(rules)
    ensures var s := NewState(startPos, rules, pks, replies);
      && Sorted(s.tablesToCopy)
      && multiset(s.tablesToCopy) == multiset(TableNames(pks))
      && IsZero(s.pos) && IsZero(s.stopPos) && s.fields.None? && s.sent == [] && s.readers == []
  {
    SortStringsCorrect(TableNames(pks));
  }

  /** Construction without TableLastPKs: no plans and an empty queue, whatever the rules. */
  lemma NewStateWithoutTablePKs(startPos: string, rules: seq<Rule>, replies: seq<Outcome>)
    ensures NewState(startPos, rules, [], replies).plans == map[]
    ensures NewState(startPos, rules, [], replies).tablesToCopy == []
  {
  }

  /**
   * Construction with TableLastPKs: one plan per rule Match, holding a rule for
   * that Match; each TableLastPK table's plan carries a TableLastPK for it; every
   * other rule's plan carries none.
   */
  lemma NewStatePlans(startPos: string, rules: seq<Rule>, pks: seq<TableLastPK>, replies: seq<Outcome>)
    requires forall pk :: pk in pks ==> pk.tableName in RuleMatches(rules)
    requires |pks| > 0
    ensures var plans := NewState(startPos, rules, pks, replies).plans;
      && plans.Keys == RuleMatches(rules)
      && (forall t :: t in plans ==> plans[t].rule.tableMatch == t && plans[t].rule in rules)
      && (forall t :: t in plans && t !in TableNames(pks) ==> plans[t].tablePK.None?)
      && (forall t :: t in TableNames(pks) ==> plans[t].tablePK.Some? && plans[t].tablePK.value.tableName == t)
  {
    var base := AddRules(map[], rules);
    AddRulesFacts(map[], rules);
    AddTablePKsFacts(base, pks);
    var plans := AddTablePKs(base, pks);
    assert NewState(startPos, rules, pks, replies).plans == plans;
    forall t | t in plans
      ensures plans[t].rule.tableMatch == t && plans[t].rule in rules
    {
      assert plans[t].rule == base[t].rule;
    }
    forall t | t in plans && t !in TableNames(pks)
      ensures plans[t].tablePK.None?
    {
      assert plans[t] == base[t];
    }
  }

  /** Construction: when the TableLastPK names do not repeat, each table's plan carries its own TableLastPK. */
  lemma NewStateCursors(startPos: string, rules: seq<Rule>, pks: seq<TableLastPK>, replies: seq<Outcome>)
    requires forall pk :: pk in pks ==> pk.tableName in RuleMatches(rules)
    requires NoDuplicates(TableNames(pks))
    ensures var plans := NewState(startPos, rules, pks, replies).plans;
      forall i :: 0 <= i < |pks| ==> pks[i].tableName in plans && plans[pks[i].tableName].tablePK == Some(pks[i])
  {
    if |pks| > 0 {
      var base := AddRules(map[], rules);
      AddRulesFacts(map[], rules);
      AddTablePKsFacts(base, pks);
      AddTablePKsCursors(base, pks);
      assert NewState(startPos, rules, pks, replies).plans == AddTablePKs(base, pks);
    }
  }

  /** A fresh streamer whose TableLastPK names do not repeat satisfies the queue/plan invariant. */
  lemma NewStateValid(startPos: string, rules: seq<Rule>, pks: seq<TableLastPK>, replies: seq<Outcome>)
    requires forall pk :: pk in pks ==> pk.tableName in RuleMatches(rules)
    requires NoDuplicates(TableNames(pks))
    ensures Valid(NewState(startPos, rules, pks, replies))
  {
    var s := NewState(startPos, rules, pks, replies);
    var names := TableNames(pks);
    SortStringsCorrect(names);
    SortStringsNoDuplicates(names);
    if |pks| > 0 {
      NewStatePlans(startPos, rules, pks, replies);
      forall t | t in s.tablesToCopy
        ensures t in s.plans && s.plans[t].tablePK.Some? && s.plans[t].tablePK.value.tableName == t
      {
        assert t in multiset(s.tablesToCopy);
        assert t in names;
      }
      forall t | t in s.plans && s.plans[t].tablePK.Some?
        ensures t in s.tablesToCopy
      {
        assert t in multiset(names);
      }
    }
  }

  // ---------------------------------------------------------------------------
  // The consumer's send

  function ReplyAt(replies: seq<Outcome>, k: nat): Outcome
  {
    if k < |replies| then replies[k] else Ok
  }

  /** One call of the consumer's `send`. */
  function Send(s: State, path: Path, evs: seq<VEvent>): Step
  {
    Step(s.(sent := s.sent + [SendCall(path, evs)]), ReplyAt(s.replies, |s.sent|))
  }

  // ---------------------------------------------------------------------------
  // Event filter (filterEvents)

  /** A ROW or FIELD event of `name` passes unless the name is empty or its plan has no cursor. */
  predicate TableKept(plans: map<string, TablePlan>, name: string)
  {
    name != "" && !(name in plans && plans[name].tablePK.None?)
  }

  /** The switch in filterEvents' loop. */
  predicate ShouldSend(plans: map<string, TablePlan>, ev: VEvent)
  {
    match ev
    case RowEv(re) => TableKept(plans, re.tableName)
    case FieldEv(fe) => TableKept(plans, fe.tableName)
    case Heartbeat => false
    case _ => true
  }

  function FilterLoop(plans: map<string, TablePlan>, evs: seq<VEvent>): seq<VEvent>
  {
    if evs == [] then []
    else (if ShouldSend(plans, evs[0]) then [evs[0]] else []) + FilterLoop(plans, evs[1..])
  }

  /** filterEvents: no plans forwards the batch as it is. */
  function FilterEvents(plans: map<string, TablePlan>, evs: seq<VEvent>): seq<VEvent>
  {
    if |plans| == 0 then evs else FilterLoop(plans, evs)
  }

  /** `a` is `b` with some elements left out, the rest in their order. */
  predicate IsSubsequence<T(==)>(a: seq<T>, b: seq<T>)
    decreases |b|
  {
    if a == [] then true
    else if b == [] then false
    else if a[0] == b[0] then IsSubsequence(a[1..], b[1..])
    else IsSubsequence(a, b[1..])
  }

  lemma {:induction false} FilterLoopSubsequence(plans: map<string, TablePlan>, evs: seq<VEvent>)
    ensures IsSubsequence(FilterLoop(plans, evs), evs)
  {
    if evs != [] {
      FilterLoopSubsequence(plans, evs[1..]);
      var rest := FilterLoop(plans, evs[1..]);
      if ShouldSend(plans, evs[0]) {
        assert FilterLoop(plans, evs) == [evs[0]] + rest;
        assert ([evs[0]] + rest)[1..] == rest;
      } else {
        assert FilterLoop(plans, evs) == rest;
        SubsequenceSkip(rest, evs);
      }
    }
  }

  /** Dropping the head of the longer sequence keeps a subsequence when the head is not used. */
  lemma {:induction false} SubsequenceSkip<T>(a: seq<T>, b: seq<T>)
    requires |b| > 0 && IsSubsequence(a, b[1..])
    ensures IsSubsequence(a, b)
    decreases |b|, |a|
  {
    if a != [] && a[0] == b[0] {
      // IsSubsequence(a, b) reduces to IsSubsequence(a[1..], b[1..]);
      // it follows from a[0] == b[0] and IsSubsequence(a, b[1..]).
      SubsequenceTail(a, b[1..]);
    }
  }

  /** A subsequence without its head is still a subsequence. */
  lemma {:induction false} SubsequenceTail<T>(a: seq<T>, b: seq<T>)
    requires a != [] && IsSubsequence(a, b)
    ensures IsSubsequence(a[1..], b)
    decreases |b|, |a|
  {
    if b != [] {
      if a[0] == b[0] {
        if a[1..] != [] {
          SubsequenceSkip(a[1..], b);
        }
      } else {
        SubsequenceTail(a, b[1..]);
        if a[1..] != [] {
          SubsequenceSkip(a[1..], b);
        }
      }
    }
  }

  lemma {:induction false} FilterLoopCounts(plans: map<string, TablePlan>, evs: seq<VEvent>, e: VEvent)
    ensures multiset(FilterLoop(plans, evs))[e] == if ShouldSend(plans, e) then multiset(evs)[e] else 0
  {
    if evs != [] {
      FilterLoopCounts(plans, evs[1..], e);
      assert evs == [evs[0]] + evs[1..];
    }
  }

  /**
   * filterEvents with plans keeps exactly the events ShouldSend accepts, in
   * their order and as often as they occur; in particular it drops every
   * HEARTBEAT, and a ROW or FIELD event exactly when its table name is empty or
   * its table's plan has no cursor.
   */
  lemma FilterEventsSpec(plans: map<string, TablePlan>, evs: seq<VEvent>)
    requires |plans| > 0
    ensures IsSubsequence(FilterEvents(plans, evs), evs)
    ensures forall e :: multiset(FilterEvents(plans, evs))[e] == if ShouldSend(plans, e) then multiset(evs)[e] else 0
    ensures Heartbeat !in FilterEvents(plans, evs)
    ensures forall re :: RowEv(re) in FilterEvents(plans, evs) <==> RowEv(re) in evs && TableKept(plans, re.tableName)
    ensures forall fe :: FieldEv(fe) in FilterEvents(plans, evs) <==> FieldEv(fe) in evs && TableKept(plans, fe.tableName)
  {
    FilterLoopSubsequence(plans, evs);
    forall e ensures multiset(FilterEvents(plans, evs))[e] == if ShouldSend(plans, e) then multiset(evs)[e] else 0 {
      FilterLoopCounts(plans, evs, e);
    }
    FilterLoopCounts(plans, evs, Heartbeat);
    forall re ensures RowEv(re) in FilterEvents(plans, evs) <==> RowEv(re) in evs && TableKept(plans, re.tableName) {
      FilterLoopCounts(plans, evs, RowEv(re));
    }
    forall fe ensures FieldEv(fe) in FilterEvents(plans, evs) <==> FieldEv(fe) in evs && TableKept(plans, fe.tableName) {
      FilterLoopCounts(plans, evs, FieldEv(fe));
    }
  }

  // ---------------------------------------------------------------------------
  // Position tracking (send2)

  datatype Tracked = Tracked(pos: Position, out: Outcome)

  /** The loop at the end of send2: adopt each GTID, and signal EOF once the stop position is reached. */
  function TrackGtids(evs: seq<VEvent>, pos: Position, stopPos: Position, out: Outcome): Tracked
  {
    if evs == [] then Tracked(pos, out)
    else match evs[0]
      case Gtid(g) =>
        var p := DecodeOrZero(g);
        TrackGtids(evs[1..], p, stopPos, if !IsZero(stopPos) && AtLeast(p, stopPos) then Eof else out)
      case _ => TrackGtids(evs[1..], pos, stopPos, out)
  }

  /** A GTID event of the batch whose position reaches a non-zero stop position. */
  predicate ReachesStop(evs: seq<VEvent>, stopPos: Position)
  {
    exists i :: 0 <= i < |evs| && evs[i].Gtid? && !IsZero(stopPos) && AtLeast(DecodeOrZero(evs[i].gtid), stopPos)
  }

  predicate NoGtid(evs: seq<VEvent>) { forall i :: 0 <= i < |evs| ==> !evs[i].Gtid? }

  /** `k` is the index of the last GTID event of `evs`. */
  predicate LastGtidAt(evs: seq<VEvent>, k: int)
  {
    0 <= k < |evs| && evs[k].Gtid? && NoGtid(evs[k + 1..])
  }

  lemma TrackGtidsFacts(evs: seq<VEvent>, pos: Position, stopPos: Position, out: Outcome)
    ensures NoGtid(evs) ==> TrackGtids(evs, pos, stopPos, out).pos == pos
    ensures forall k :: LastGtidAt(evs, k) ==> TrackGtids(evs, pos, stopPos, out).pos == DecodeOrZero(evs[k].gtid)
    ensures TrackGtids(evs, pos, stopPos, out).out == if out == Eof || ReachesStop(evs, stopPos) then Eof else out
  {
    TrackGtidsPos(evs, pos, stopPos, out);
    TrackGtidsOut(evs, pos, stopPos, out);
  }

  /** The tracked position is the last GTID of the batch, or the old one without a GTID. */
  lemma {:induction false} TrackGtidsPos(evs: seq<VEvent>, pos: Position, stopPos: Position, out: Outcome)
    ensures NoGtid(evs) ==> TrackGtids(evs, pos, stopPos, out).pos == pos
    ensures forall k :: LastGtidAt(evs, k) ==> TrackGtids(evs, pos, stopPos, out).pos == DecodeOrZero(evs[k].gtid)
  {
    if evs != [] {
      var r := TrackGtids(evs, pos, stopPos, out);
      var nextPos := if evs[0].Gtid? then DecodeOrZero(evs[0].gtid) else pos;
      var nextOut := if evs[0].Gtid? && !IsZero(stopPos) && AtLeast(DecodeOrZero(evs[0].gtid), stopPos) then Eof else out;
      TrackGtidsPos(evs[1..], nextPos, stopPos, nextOut);
      assert r.pos == TrackGtids(evs[1..], nextPos, stopPos, nextOut).pos;
      assert NoGtid(evs) ==> NoGtid(evs[1..]);
      forall k | LastGtidAt(evs, k)
        ensures r.pos == DecodeOrZero(evs[k].gtid)
      {
        if k > 0 {
          assert evs[1..][k - 1] == evs[k];
          assert evs[1..][k - 1 + 1..] == evs[k + 1..];
          assert LastGtidAt(evs[1..], k - 1);
        } else {
          assert evs[1..] == evs[k + 1..];
        }
      }
    }
  }

  /** The tracked outcome turns EOF once a GTID reaches the non-zero stop position. */
  lemma {:induction false} TrackGtidsOut(evs: seq<VEvent>, pos: Position, stopPos: Position, out: Outcome)
    ensures TrackGtids(evs, pos, stopPos, out).out == if out == Eof || ReachesStop(evs, stopPos) then Eof else out
  {
    if evs != [] {
      var r := TrackGtids(evs, pos, stopPos, out);
      var nextPos := if evs[0].Gtid? then DecodeOrZero(evs[0].gtid) else pos;
      var nextOut := if evs[0].Gtid? && !IsZero(stopPos) && AtLeast(DecodeOrZero(evs[0].gtid), stopPos) then Eof else out;
      TrackGtidsOut(evs[1..], nextPos, stopPos, nextOut);
      assert r.out == TrackGtids(evs[1..], nextPos, stopPos, nextOut).out;
      if ReachesStop(evs, stopPos) && !(evs[0].Gtid? && !IsZero(stopPos) && AtLeast(DecodeOrZero(evs[0].gtid), stopPos)) {
        var i :| 0 <= i < |evs| && evs[i].Gtid? && !IsZero(stopPos) && AtLeast(DecodeOrZero(evs[i].gtid), stopPos);
        assert i > 0 && evs[1..][i - 1] == evs[i];
      }
      if ReachesStop(evs[1..], stopPos) {
        var i :| 0 <= i < |evs[1..]| && evs[1..][i].Gtid? && !IsZero(stopPos) && AtLeast(DecodeOrZero(evs[1..][i].gtid), stopPos);
        assert evs[i + 1] == evs[1..][i];
      }
    }
  }

  /** send2 (the lag gauge left out): filter when plans exist, send, then track positions. */
  function Send2(s: State, evs: seq<VEvent>): Step
  {
    if |evs| == 0 then Step(s, Ok)
    else
      var evs2 := if |s.plans| > 0 then FilterEvents(s.plans, evs) else [];
      var r := Send(s, Pipeline, evs2);
      if r.out.Fail? then r
      else
        var t := TrackGtids(evs2, r.st.pos, r.st.stopPos, r.out);
        Step(r.st.(pos := t.pos), t.out)
  }

  /** The batch send2 hands to the consumer: the filtered batch with plans, nothing without. */
  function Forwarded(plans: map<string, TablePlan>, evs: seq<VEvent>): seq<VEvent>
  {
    if |plans| > 0 then FilterEvents(plans, evs) else []
  }

  /**
   * send2: an empty batch is a no-op. Otherwise exactly one send of the
   * forwarded batch (nothing at all without plans); a non-EOF error comes back
   * with the position unchanged; else the position becomes the last forwarded
   * GTID (unchanged without one) and the result is EOF exactly when the
   * consumer said EOF or a forwarded GTID reached the non-zero stop position.
   * Nothing other than the log and the position changes.
   */
  lemma Send2Spec(s: State, evs: seq<VEvent>)
    ensures |evs| == 0 ==> Send2(s, evs) == Step(s, Ok)
    ensures |evs| > 0 ==>
      var fwd := Forwarded(s.plans, evs);
      var reply := ReplyAt(s.replies, |s.sent|);
      var r := Send2(s, evs);
      && r.st == s.(sent := s.sent + [SendCall(Pipeline, fwd)], pos := r.st.pos)
      && (reply.Fail? ==> r.out == reply && r.st.pos == s.pos)
      && (!reply.Fail? ==>
            && (NoGtid(fwd) ==> r.st.pos == s.pos)
            && (forall k :: LastGtidAt(fwd, k) ==> r.st.pos == DecodeOrZero(fwd[k].gtid))
            && (r.out == Eof <==> reply == Eof || ReachesStop(fwd, s.stopPos))
            && (r.out != Eof ==> r.out == Ok))
  {
    if |evs| > 0 {
      var fwd := Forwarded(s.plans, evs);
      var reply := ReplyAt(s.replies, |s.sent|);
      TrackGtidsFacts(fwd, s.pos, s.stopPos, reply);
    }
  }

  /** Without plans send2 forwards an empty batch, whatever it was given. */
  lemma Send2WithoutPlans(s: State, evs: seq<VEvent>)
    requires |s.plans| == 0 && |evs| > 0
    ensures Send2(s, evs).st.sent == s.sent + [SendCall(Pipeline, [])]
    ensures Send2(s, evs).st.pos == s.pos
  {
    TrackGtidsFacts([], s.pos, s.stopPos, ReplyAt(s.replies, |s.sent|));
  }

  /** A batch whose last forwarded GTID reaches the non-zero stop position ends the reader with EOF. */
  lemma Send2StopsAtStopPos(s: State, evs: seq<VEvent>, k: int)
    requires |evs| > 0 && !ReplyAt(s.replies, |s.sent|).Fail?
    requires LastGtidAt(Forwarded(s.plans, evs), k)
    requires !IsZero(s.stopPos) && AtLeast(Send2(s, evs).st.pos, s.stopPos)
    ensures Send2(s, evs).out == Eof
  {
    var fwd := Forwarded(s.plans, evs);
    Send2Spec(s, evs);
    assert Send2(s, evs).st.pos == DecodeOrZero(fwd[k].gtid);
    assert ReachesStop(fwd, s.stopPos);
  }

  // ---------------------------------------------------------------------------
  // External live-tail readers (newVStreamer(...).Stream())

  /** `after` is `before` followed by calls made only through `path`. */
  predicate AppendedBy(before: seq<SendCall>, after: seq<SendCall>, path: Path)
  {
    && |before| <= |after| && after[..|before|] == before
    && forall k :: |before| <= k < |after| ==> after[k].path == path
  }

  /** Which send the reader is given: `send2` for catch-up and fast-forward, plain `send` for replication. */
  datatype Sink = ThroughPipeline | Plain

  function Deliver(s: State, sink: Sink, evs: seq<VEvent>): Step
  {
    if sink == ThroughPipeline then Send2(s, evs) else Send(s, Replication, evs)
  }

  /**
   * A live-tail reader delivering `batches` in order. EOF from its send stops it
   * cleanly, any other error stops it with that error; after the last batch it
   * ends with `tail`, its own result, except that an EOF `tail` is read as nil:
   * the reader is taken never to return EOF by itself.
   */
  function LiveReader(s: State, sink: Sink, batches: seq<seq<VEvent>>, tail: Outcome): (r: Step)
    ensures r.st.plans == s.plans && r.st.tablesToCopy == s.tablesToCopy
    ensures r.st.fields == s.fields && r.st.pkfields == s.pkfields
    ensures r.st.stopPos == s.stopPos && r.st.readers == s.readers
    ensures r.st.startPos == s.startPos && r.st.replies == s.replies
    ensures sink == Plain ==> r.st.pos == s.pos
    ensures r.out != Eof
    ensures AppendedBy(s.sent, r.st.sent, if sink == ThroughPipeline then Pipeline else Replication)
    decreases |batches|
  {
    if batches == [] then Step(s, if tail == Eof then Ok else tail)
    else
      var d := Deliver(s, sink, batches[0]);
      DeliverFacts(s, sink, batches[0]);
      if d.out == Eof then Step(d.st, Ok)
      else if d.out.Fail? then d
      else
        var rest := LiveReader(d.st, sink, batches[1..], tail);
        AppendedByTransitive(s.sent, d.st.sent, rest.st.sent, if sink == ThroughPipeline then Pipeline else Replication);
        rest
  }

  lemma DeliverFacts(s: State, sink: Sink, evs: seq<VEvent>)
    ensures var d := Deliver(s, sink, evs);
      && d.st == s.(sent := d.st.sent, pos := d.st.pos)
      && (sink == Plain ==> d.st.pos == s.pos)
      && AppendedBy(s.sent, d.st.sent, if sink == ThroughPipeline then Pipeline else Replication)
  {
  }

  lemma AppendedByTransitive(a: seq<SendCall>, b: seq<SendCall>, c: seq<SendCall>, path: Path)
    requires AppendedBy(a, b, path) && AppendedBy(b, c, path)
    ensures AppendedBy(a, c, path)
  {
    assert c[..|a|] == c[..|b|][..|a|];
  }

  /** Start a reader at the current position (recorded in `readers`) and run it. */
  function StartLiveReader(s: State, sink: Sink, stop: string, batches: seq<seq<VEvent>>, tail: Outcome): Step
  {
    LiveReader(s.(readers := s.readers + [LiveTail(EncodePosition(s.pos), stop)]), sink, batches, tail)
  }

  // ---------------------------------------------------------------------------
  // Start position (sendEventsForCurrentPos, setStreamPosition, init)

  function CurrentPosEvents(pos: Position): seq<VEvent>
  {
    [Gtid(EncodePosition(pos)), Other]
  }

  /** sendEventsForCurrentPos: a send error, EOF included, comes back wrapped with the position. */
  function SendEventsForCurrentPos(s: State): Step
  {
    var r := Send(s, Direct, CurrentPosEvents(s.pos));
    if r.out == Ok then r else Step(r.st, Fail(Wrapped(r.out, s.pos)))
  }

  /**
   * sendEventsForCurrentPos sends [GTID(current position), OTHER] once and
   * changes nothing else; it returns nil iff the consumer accepted the batch,
   * and never EOF: any other reply is wrapped together with the position.
   */
  lemma SendEventsForCurrentPosSpec(s: State)
    ensures var r := SendEventsForCurrentPos(s);
      var reply := ReplyAt(s.replies, |s.sent|);
      && r.st == s.(sent := s.sent + [SendCall(Direct, [Gtid(EncodePosition(s.pos)), Other])])
      && (r.out == Ok <==> reply == Ok)
      && r.out != Eof
      && (reply != Ok ==> r.out == Fail(Wrapped(reply, s.pos)))
  {
  }

  /**
   * setStreamPosition; `current` is the source's position as the database
   * reports it, None when it cannot be obtained. The result of
   * sendEventsForCurrentPos is ignored, as in the source.
   */
  function SetStreamPosition(s: State, current: Option<Position>): Step
  {
    if s.startPos == "" then Step(s, Ok)
    else if current.None? then Step(s, Fail(NoCurrentPosition))
    else if s.startPos == "current" then
      var r := SendEventsForCurrentPos(s.(pos := current.value));
      Step(r.st, Ok)
    else match DecodePosition(s.startPos)
      case None => Step(s, Fail(MalformedPosition))
      case Some(p) =>
        if !AtLeast(current.value, p) then Step(s, Fail(PositionAhead))
        else Step(s.(pos := p), Ok)
  }

  function Init(s: State, current: Option<Position>): Step
  {
    var r := SetStreamPosition(s, current);
    if r.out != Ok then r
    else if IsZero(r.st.pos) && |r.st.plans| == 0 then Step(r.st, Fail(MissingResumeInput))
    else r
  }

  /**
   * Start-position resolution: no start position changes nothing; "current"
   * adopts the source's position and emits [GTID, OTHER] even when that send
   * fails; an explicit position the source has not reached is an error and any
   * other explicit position is adopted verbatim, without sending anything.
   * Plans, queue and stop position never change.
   */
  lemma SetStreamPositionSpec(s: State, current: Option<Position>)
    ensures var r := SetStreamPosition(s, current);
      && r.st.plans == s.plans && r.st.tablesToCopy == s.tablesToCopy && r.st.stopPos == s.stopPos
      && (s.startPos == "" ==> r == Step(s, Ok))
      && (s.startPos != "" && current.None? ==> r == Step(s, Fail(NoCurrentPosition)))
      && (s.startPos == "current" && current.Some? ==>
            && r.out == Ok && r.st.pos == current.value
            && r.st.sent == s.sent + [SendCall(Direct, [Gtid(EncodePosition(current.value)), Other])])
      && (s.startPos != "" && s.startPos != "current" && current.Some? ==>
            && r.st.sent == s.sent
            && (DecodePosition(s.startPos).None? ==> r == Step(s, Fail(MalformedPosition)))
            && (DecodePosition(s.startPos).Some? ==>
                  var p := DecodePosition(s.startPos).value;
                  && (!AtLeast(current.value, p) ==> r == Step(s, Fail(PositionAhead)))
                  && (AtLeast(current.value, p) ==>
                        r.out == Ok && r.st.pos == p)))
  {
  }

  /** init fails exactly when resolution fails or leaves a zero position with no plans. */
  lemma InitSpec(s: State, current: Option<Position>)
    ensures var p := SetStreamPosition(s, current);
      var r := Init(s, current);
      && r.st == p.st
      && (r.out == Ok <==> p.out == Ok && !(IsZero(p.st.pos) && |s.plans| == 0))
      && (p.out == Ok && IsZero(p.st.pos) && |s.plans| == 0 ==> r.out == Fail(MissingResumeInput))
  {
    SetStreamPositionSpec(s, current);
  }

  // ---------------------------------------------------------------------------
  // Copy bookkeeping (setCopyState, copyComplete) and setPosition

  /** setCopyState: store the cursor in the table's TableLastPK. */
  function SetCopyState(s: State, t: string, qr: QueryResult): State
    requires t in s.plans && s.plans[t].tablePK.Some?
  {
    var plan := s.plans[t];
    s.(plans := s.plans[t := plan.(tablePK := Some(plan.tablePK.value.(lastpk := Some(qr))))])
  }

  function CompletionEvents(t: string): seq<VEvent>
  {
    [Begin, LastPK(LastPKEvent(TableLastPK(t, None), true)), Commit]
  }

  /** copyComplete: send the completion marker, then drop the plan and the queue head. */
  function CopyComplete(s: State, t: string): Step
    requires |s.tablesToCopy| > 0
  {
    var r := Send(s, Direct, CompletionEvents(t));
    if r.out != Ok then r
    else Step(r.st.(plans := r.st.plans - {t}, tablesToCopy := r.st.tablesToCopy[1..]), Ok)
  }

  /**
   * copyComplete sends exactly BEGIN, the completed LASTPK of the table with no
   * cursor, and COMMIT. Only when that send returns nil are the plan deleted and
   * the queue head dropped, which keeps the queue/plan invariant when the table
   * is the head; any error, EOF included, leaves plans and queue as they were.
   */
  lemma CopyCompleteSpec(s: State, t: string)
    requires |s.tablesToCopy| > 0
    ensures var r := CopyComplete(s, t);
      && r.st.sent == s.sent + [SendCall(Direct, [Begin, LastPK(LastPKEvent(TableLastPK(t, None), true)), Commit])]
      && r.out == ReplyAt(s.replies, |s.sent|)
      && r.st.pos == s.pos && r.st.fields == s.fields
      && (r.out == Ok ==> r.st.plans == s.plans - {t} && r.st.tablesToCopy == s.tablesToCopy[1..])
      && (r.out != Ok ==> r.st.plans == s.plans && r.st.tablesToCopy == s.tablesToCopy)
      && (Valid(s) && t == s.tablesToCopy[0] ==> Valid(r.st))
  {
    var r := CopyComplete(s, t);
    if Valid(s) && t == s.tablesToCopy[0] && r.out == Ok {
      var q := s.tablesToCopy;
      assert t !in q[1..] by {
        forall j | 0 <= j < |q[1..]| ensures q[1..][j] != t {
          assert q[0] != q[j + 1];
        }
      }
      forall u | u in r.st.plans && r.st.plans[u].tablePK.Some?
        ensures u in r.st.tablesToCopy
      {
        assert u in q && u != q[0];
        var j :| 0 <= j < |q| && q[j] == u;
        assert q[1..][j - 1] == u;
      }
    }
  }

  /** The events setPosition sends: a bare GTID inside a transaction, framed by BEGIN/COMMIT outside. */
  function PositionFrame(gtid: string, isInTx: bool): seq<VEvent>
  {
    if isInTx then [Gtid(gtid)] else [Begin, Gtid(gtid), Commit]
  }

  /** setPosition: publish a position change; `pos` moves only after a successful send. */
  function SetPosition(s: State, gtid: string, isInTx: bool): (r: Step)
    ensures r.st == s.(sent := r.st.sent, pos := r.st.pos)
  {
    if gtid == "" then Step(s, Fail(EmptyGtid))
    else match DecodePosition(gtid)
      case None => Step(s, Fail(MalformedPosition))
      case Some(p) =>
        if Equal(p, s.pos) then Step(s, Ok)
        else
          var r := Send(s, Direct, PositionFrame(gtid, isInTx));
          if r.out != Ok then r else Step(r.st.(pos := p), Ok)
  }

  /**
   * setPosition: an empty gtid is an error and a malformed one too, both with
   * nothing sent; a gtid naming the current position changes and sends nothing;
   * otherwise exactly one send of [GTID] or [BEGIN, GTID, COMMIT], and the
   * position becomes the decoded gtid only when that send returns nil.
   * Whenever it returns nil, the position is the one the gtid names.
   */
  lemma SetPositionSpec(s: State, gtid: string, isInTx: bool)
    ensures var r := SetPosition(s, gtid, isInTx);
      && (gtid == "" ==> r == Step(s, Fail(EmptyGtid)))
      && (gtid != "" && DecodePosition(gtid).None? ==> r == Step(s, Fail(MalformedPosition)))
      && (gtid != "" && DecodePosition(gtid).Some? && DecodePosition(gtid).value == s.pos ==> r == Step(s, Ok))
      && (gtid != "" && DecodePosition(gtid).Some? && DecodePosition(gtid).value != s.pos ==>
            var reply := ReplyAt(s.replies, |s.sent|);
            && r.st == s.(sent := s.sent + [SendCall(Direct, PositionFrame(gtid, isInTx))], pos := r.st.pos)
            && r.out == reply
            && r.st.pos == (if reply == Ok then DecodePosition(gtid).value else s.pos))
      && (r.out == Ok ==> DecodePosition(gtid) == Some(r.st.pos))
  {
    if gtid != "" && DecodePosition(gtid).Some? {
      assert Equal(DecodePosition(gtid).value, s.pos) ==> DecodePosition(gtid).value == s.pos;
    }
  }
}
