/**
  The status condition list and its four hand-written upserts: setAutoIndexerCondition and
  updateStatus in the controller, add_status_condition and the merge loop of
  _create_base_autoindexer_status_update in the job.
 */
module Conditions {
  import opened Options

  /** The condition types the sources write; `OtherKind` is anything else in the list. */
  datatype Kind = ErrorKind | ReadyKind | SucceededKind | FailedKind | IndexingKind | OtherKind(name: string)

  datatype Truth = True | False | Unknown

  datatype Reason =
    | IndexingStarted | IndexingCompleted | IndexingErrors
    | ReconcileSucceeded | ReconcileFailed | ResourcesEnsured
    | RAGEngineNotFound | RBACFailed | CronJobFailed | JobCreationFailed

  datatype Condition = Condition(kind: Kind, status: Truth, reason: Reason, time: nat)

  /** SetCondition and UpdateStatus are the Go writers, AddStatus and BaseUpdate the Python ones. */
  datatype Writer = SetCondition | UpdateStatus | AddStatus | BaseUpdate

  /** The index of the first condition of a kind, |cs| when there is none. */
  function Position(cs: seq<Condition>, kind: Kind): (k: nat)
    ensures k <= |cs|
    ensures k < |cs| ==> cs[k].kind == kind
    ensures forall j :: 0 <= j < k ==> cs[j].kind != kind
  {
    if cs == [] || cs[0].kind == kind then 0 else 1 + Position(cs[1..], kind)
  }

  function Lookup(cs: seq<Condition>, kind: Kind): Option<Condition> {
    var k := Position(cs, kind);
    if k < |cs| then Some(cs[k]) else None
  }

  /** What a writer stores over the condition it found. */
  function Merged(w: Writer, found: Option<Condition>, c: Condition): Condition {
    if found.None? || found.value.status != c.status then c
    else match w
      case SetCondition => found.value
      case AddStatus => c.(time := found.value.time)
      case _ => c
  }

  function Write(w: Writer, cs: seq<Condition>, c: Condition): seq<Condition> {
    var k := Position(cs, c.kind);
    if k < |cs| then cs[k := Merged(w, Some(cs[k]), c)] else cs + [c]
  }

  function WriteEach(w: Writer, cs: seq<Condition>, news: seq<Condition>): seq<Condition> {
    if news == [] then cs
    else Write(w, WriteEach(w, cs, news[..|news| - 1]), news[|news| - 1])
  }

  /** any(type == "AutoIndexerError" and status == "True") */
  predicate HadErrors(cs: seq<Condition>) {
    exists k :: 0 <= k < |cs| && cs[k].kind == ErrorKind && cs[k].status == True
  }

  /** The first condition of this kind is at k. */
  predicate FirstAt(cs: seq<Condition>, kind: Kind, k: int) {
    0 <= k < |cs| && cs[k].kind == kind && forall j :: 0 <= j < k ==> cs[j].kind != kind
  }

  predicate Missing(cs: seq<Condition>, kind: Kind) {
    forall j :: 0 <= j < |cs| ==> cs[j].kind != kind
  }

  /** The list inside an object's status, updated in place by the four writers. */
  class ConditionList {
    var items: seq<Condition>

    constructor (items: seq<Condition>)
      ensures this.items == items
    {
      this.items := items;
    }

    /** setAutoIndexerCondition: an equal status leaves the condition untouched. */
    method SetAutoIndexerCondition(c: Condition)
      modifies this
      ensures items == Write(SetCondition, old(items), c)
      ensures Missing(old(items), c.kind) ==> items == old(items) + [c]
      ensures forall k :: FirstAt(old(items), c.kind, k) ==>
                items == if old(items)[k].status == c.status then old(items) else old(items)[k := c]
    {
      for i := 0 to |items|
        invariant items == old(items)
        invariant forall j :: 0 <= j < i ==> items[j].kind != c.kind
      {
        if items[i].kind == c.kind {
          assert Position(items, c.kind) == i;
          if items[i].status != c.status {
            items := items[i := c];
          }
          return;
        }
      }
      items := items + [c];
    }

    /** The loop of updateStatus: each new condition replaces the first of its kind. */
    method UpdateStatusConditions(news: seq<Condition>)
      modifies this
      ensures items == WriteEach(UpdateStatus, old(items), news)
    {
      for n := 0 to |news|
        invariant items == WriteEach(UpdateStatus, old(items), news[..n])
      {
        assert news[..n + 1][..n] == news[..n];
        var before := items;
        var found := false;
        for i := 0 to |before|
          invariant !found && items == before
          invariant forall j :: 0 <= j < i ==> before[j].kind != news[n].kind
        {
          if items[i].kind == news[n].kind {
            assert Position(before, news[n].kind) == i;
            items := items[i := news[n]];
            found := true;
            break;
          }
        }
        if !found {
          items := items + [news[n]];
        }
      }
      assert news[..|news|] == news;
    }

    /** The loop of add_status_condition: the transition time survives an equal status. */
    method AddStatusCondition(c: Condition)
      modifies this
      ensures items == Write(AddStatus, old(items), c)
      ensures Missing(old(items), c.kind) ==> items == old(items) + [c]
      ensures forall k :: FirstAt(old(items), c.kind, k) ==>
                var time := if old(items)[k].status == c.status then old(items)[k].time else c.time;
                items == old(items)[k := Condition(c.kind, c.status, c.reason, time)]
    {
      var found := false;
      for i := 0 to |items|
        invariant !found && items == old(items)
        invariant forall j :: 0 <= j < i ==> items[j].kind != c.kind
      {
        if items[i].kind == c.kind {
          assert Position(items, c.kind) == i;
          var time := if items[i].status != c.status then c.time else items[i].time;
          items := items[i := c.(time := time)];
          found := true;
          break;
        }
      }
      if !found {
        items := items + [c];
      }
    }

    /** The merge loop of _create_base_autoindexer_status_update. */
    method MergeBaseConditions(news: seq<Condition>)
      modifies this
      ensures items == WriteEach(BaseUpdate, old(items), news)
    {
      for n := 0 to |news|
        invariant items == WriteEach(BaseUpdate, old(items), news[..n])
      {
        assert news[..n + 1][..n] == news[..n];
        var before := items;
        var found := false;
        for i := 0 to |before|
          invariant !found && items == before
          invariant forall j :: 0 <= j < i ==> before[j].kind != news[n].kind
        {
          if before[i].kind == news[n].kind {
            assert Position(before, news[n].kind) == i;
            items := items[i := news[n]];
            found := true;
            break;
          }
        }
        if !found {
          items := items + [news[n]];
        }
      }
      assert news[..|news|] == news;
    }
  }

  // ---- All writers refine one map update ----

  function Kinds(cs: seq<Condition>): seq<Kind> {
    if cs == [] then [] else Kinds(cs[..|cs| - 1]) + [cs[|cs| - 1].kind]
  }

  predicate DistinctKinds(cs: seq<Condition>) {
    forall i, j :: 0 <= i < j < |cs| ==> cs[i].kind != cs[j].kind
  }

  /** The list read as a map; the first condition of a kind counts. */
  function AsMap(cs: seq<Condition>): map<Kind, Condition> {
    map k | k in Kinds(cs) && Lookup(cs, k).Some? :: Lookup(cs, k).value
  }

  lemma {:induction false} KindsAt(cs: seq<Condition>)
    ensures |Kinds(cs)| == |cs| && forall k :: 0 <= k < |cs| ==> Kinds(cs)[k] == cs[k].kind
  {
    if cs != [] {
      KindsAt(cs[..|cs| - 1]);
    }
  }

  lemma KindsLookup(cs: seq<Condition>, kind: Kind)
    ensures kind in Kinds(cs) <==> Lookup(cs, kind).Some?
  {
    KindsAt(cs);
    var k := Position(cs, kind);
    if k < |cs| {
      assert Kinds(cs)[k] == kind;
    }
  }

  lemma FirstPosition(cs: seq<Condition>, kind: Kind, k: nat)
    requires k < |cs| && cs[k].kind == kind && forall j :: 0 <= j < k ==> cs[j].kind != kind
    ensures Position(cs, kind) == k
  {
  }

  lemma SamePosition(cs: seq<Condition>, after: seq<Condition>, kind: Kind)
    requires |cs| <= |after| && forall j :: 0 <= j < |cs| ==> after[j].kind == cs[j].kind
    requires Position(cs, kind) < |cs|
    ensures Position(after, kind) == Position(cs, kind)
  {
    FirstPosition(after, kind, Position(cs, kind));
  }

  lemma WriteKeepsKinds(w: Writer, cs: seq<Condition>, c: Condition)
    ensures |cs| <= |Write(w, cs, c)| && forall j :: 0 <= j < |cs| ==> Write(w, cs, c)[j].kind == cs[j].kind
  {
  }

  lemma WriteLooksUp(w: Writer, cs: seq<Condition>, c: Condition, kind: Kind)
    ensures Lookup(Write(w, cs, c), kind) ==
            if kind == c.kind then Some(Merged(w, Lookup(cs, kind), c)) else Lookup(cs, kind)
  {
    hide Position;
    var after := Write(w, cs, c);
    var p := Position(cs, kind);
    assert Merged(w, None, c) == c;
    hide Merged;
    WriteKeepsKinds(w, cs, c);
    if p < |cs| {
      SamePosition(cs, after, kind);
      assert after[p] == if kind == c.kind then Merged(w, Some(cs[p]), c) else cs[p];
    } else if kind == c.kind {
      FirstPosition(after, kind, |cs|);
      assert after[|cs|] == c;
    } else {
      assert Position(after, kind) == |after|;
    }
  }

  lemma WriteKeepsOrder(w: Writer, cs: seq<Condition>, c: Condition)
    ensures Kinds(Write(w, cs, c)) == if c.kind in Kinds(cs) then Kinds(cs) else Kinds(cs) + [c.kind]
    ensures DistinctKinds(cs) ==> DistinctKinds(Write(w, cs, c))
  {
    hide Position, Kinds;
    var after := Write(w, cs, c);
    KindsAt(cs);
    KindsAt(after);
    KindsLookup(cs, c.kind);
  }

  /** Every writer is one update of the map the list stands for; it keeps the order of the rest and,
      from distinct kinds, distinct kinds. */
  lemma WriteRefinesMapUpdate(w: Writer, cs: seq<Condition>, c: Condition)
    ensures AsMap(Write(w, cs, c)) == AsMap(cs)[c.kind := Merged(w, Get(AsMap(cs), c.kind), c)]
    ensures Kinds(Write(w, cs, c)) == if c.kind in Kinds(cs) then Kinds(cs) else Kinds(cs) + [c.kind]
    ensures DistinctKinds(cs) ==> DistinctKinds(Write(w, cs, c))
  {
    WriteKeepsOrder(w, cs, c);
    var after := Write(w, cs, c);
    var expected := AsMap(cs)[c.kind := Merged(w, Get(AsMap(cs), c.kind), c)];
    forall kind ensures Get(AsMap(after), kind) == Get(expected, kind) {
      KindsLookup(cs, kind);
      KindsLookup(after, kind);
      WriteLooksUp(w, cs, c, kind);
      KindsLookup(cs, c.kind);
    }
    SameEntries(AsMap(after), expected);
  }

  datatype Call = Call(writer: Writer, c: Condition)

  function WriteAll(cs: seq<Condition>, calls: seq<Call>): seq<Condition> {
    if calls == [] then cs
    else
      var last := calls[|calls| - 1];
      Write(last.writer, WriteAll(cs, calls[..|calls| - 1]), last.c)
  }

  function UpdateAll(m: map<Kind, Condition>, calls: seq<Call>): map<Kind, Condition> {
    if calls == [] then m
    else
      var last := calls[|calls| - 1];
      var before := UpdateAll(m, calls[..|calls| - 1]);
      before[last.c.kind := Merged(last.writer, Get(before, last.c.kind), last.c)]
  }

  /** Any interleaving of the four writers: the list keeps standing for the updated map, kinds stay
      distinct, and the kinds present at the start keep their places at the front. */
  lemma {:induction false} InterleavedWriters(cs: seq<Condition>, calls: seq<Call>)
    requires DistinctKinds(cs)
    ensures AsMap(WriteAll(cs, calls)) == UpdateAll(AsMap(cs), calls)
    ensures DistinctKinds(WriteAll(cs, calls))
    ensures Kinds(cs) <= Kinds(WriteAll(cs, calls))
  {
    if calls != [] {
      var last := calls[|calls| - 1];
      InterleavedWriters(cs, calls[..|calls| - 1]);
      WriteRefinesMapUpdate(last.writer, WriteAll(cs, calls[..|calls| - 1]), last.c);
    }
  }

  /** A list with distinct kinds is fixed by the order of its kinds and the map it stands for. */
  lemma {:induction false} ListFromMap(cs: seq<Condition>, cs': seq<Condition>)
    requires DistinctKinds(cs) && DistinctKinds(cs') && Kinds(cs) == Kinds(cs') && AsMap(cs) == AsMap(cs')
    ensures cs == cs'
  {
    KindsAt(cs);
    KindsAt(cs');
    forall k | 0 <= k < |cs| ensures cs[k] == cs'[k] {
      var kind := cs[k].kind;
      assert Kinds(cs)[k] == kind && Kinds(cs')[k] == kind;
      FirstPosition(cs, kind, k);
      FirstPosition(cs', kind, k);
      assert AsMap(cs)[kind] == cs[k] && AsMap(cs')[kind] == cs'[k];
    }
  }

  /** Two writes of different kinds commute exactly when one of the kinds is in the list already; otherwise
      the order in which they are appended stays visible. */
  lemma WritersCommuteIff(cs: seq<Condition>, a: Call, b: Call)
    requires DistinctKinds(cs) && a.c.kind != b.c.kind
    ensures WriteAll(cs, [a, b]) == WriteAll(cs, [b, a]) <==> a.c.kind in Kinds(cs) || b.c.kind in Kinds(cs)
  {
    TwoCalls(cs, a, b);
    TwoCalls(cs, b, a);
    TwoWrites(cs, a, b);
    TwoWrites(cs, b, a);
    hide Write, WriteAll, Kinds, AsMap, Merged, WriteTwo, DistinctKinds;
    var ks, m := Kinds(cs), AsMap(cs);
    AppendsCommuteIff(ks, a.c.kind, b.c.kind);
    UpdatesCommute(m, a.c.kind, Merged(a.writer, Get(m, a.c.kind), a.c),
                   b.c.kind, Merged(b.writer, Get(m, b.c.kind), b.c));
    if a.c.kind in ks || b.c.kind in ks {
      ListFromMap(WriteTwo(cs, a, b), WriteTwo(cs, b, a));
    }
  }

  /** A sequence of kinds with one more at the end unless it is there already. */
  function WithKind(ks: seq<Kind>, kind: Kind): seq<Kind> {
    ks + (if kind in ks then [] else [kind])
  }

  lemma AppendsCommuteIff(ks: seq<Kind>, a: Kind, b: Kind)
    requires a != b
    ensures WithKind(WithKind(ks, a), b) == WithKind(WithKind(ks, b), a) <==> a in ks || b in ks
  {
    if a !in ks && b !in ks {
      assert WithKind(WithKind(ks, a), b)[|ks|] == a && WithKind(WithKind(ks, b), a)[|ks|] == b;
    }
  }

  lemma UpdatesCommute<K, V>(m: map<K, V>, a: K, x: V, b: K, y: V)
    requires a != b
    ensures m[a := x][b := y] == m[b := y][a := x]
  {
  }

  function WriteTwo(cs: seq<Condition>, a: Call, b: Call): seq<Condition> {
    Write(b.writer, Write(a.writer, cs, a.c), b.c)
  }

  lemma TwoCalls(cs: seq<Condition>, a: Call, b: Call)
    ensures WriteAll(cs, [a, b]) == WriteTwo(cs, a, b)
  {
    hide Write;
    assert [a, b][..1] == [a] && [a][..0] == [];
    assert WriteAll(cs, [a]) == Write(a.writer, WriteAll(cs, []), a.c);
  }

  lemma TwoWrites(cs: seq<Condition>, a: Call, b: Call)
    requires DistinctKinds(cs) && a.c.kind != b.c.kind
    ensures var ks, m := Kinds(cs), AsMap(cs);
            && Kinds(WriteTwo(cs, a, b)) == WithKind(WithKind(ks, a.c.kind), b.c.kind)
            && AsMap(WriteTwo(cs, a, b)) == m[a.c.kind := Merged(a.writer, Get(m, a.c.kind), a.c)]
                                             [b.c.kind := Merged(b.writer, Get(m, b.c.kind), b.c)]
            && DistinctKinds(WriteTwo(cs, a, b))
  {
    WriteRefinesMapUpdate(a.writer, cs, a.c);
    WriteRefinesMapUpdate(b.writer, Write(a.writer, cs, a.c), b.c);
    hide Write, Kinds, AsMap, Merged;
  }

  // ---- Each writer by itself ----

  /** A new kind is appended, by every writer. */
  lemma WriteAppends(w: Writer, cs: seq<Condition>, c: Condition)
    requires Missing(cs, c.kind)
    ensures Write(w, cs, c) == cs + [c]
  {
  }

  /** setAutoIndexerCondition leaves the whole list alone on an equal status. */
  lemma SetLeavesEqualStatus(cs: seq<Condition>, c: Condition, k: int)
    requires FirstAt(cs, c.kind, k)
    ensures Write(SetCondition, cs, c) == if cs[k].status == c.status then cs else cs[k := c]
  {
    FirstPosition(cs, c.kind, k);
  }

  /** add_status_condition takes the new reason, and on an equal status keeps kind, status and time. */
  lemma AddTakesReason(cs: seq<Condition>, c: Condition, k: int)
    requires FirstAt(cs, c.kind, k)
    ensures var time := if cs[k].status == c.status then cs[k].time else c.time;
            Write(AddStatus, cs, c) == cs[k := Condition(c.kind, c.status, c.reason, time)]
  {
    FirstPosition(cs, c.kind, k);
  }

  /** The other two replace the condition whatever it was. */
  lemma ReplacersReplace(w: Writer, cs: seq<Condition>, c: Condition, k: int)
    requires w in {UpdateStatus, BaseUpdate} && FirstAt(cs, c.kind, k)
    ensures Write(w, cs, c) == cs[k := c]
  {
    FirstPosition(cs, c.kind, k);
  }

  // ---- Transition times and reasons ----

  ghost predicate NoneBetween(calls: seq<Call>, kind: Kind, j: int, k: int) {
    forall i :: j < i < k && 0 <= i < |calls| ==> calls[i].c.kind != kind
  }

  /** The writers that respect transition times. */
  const TIME_KEEPERS: set<Writer> := {SetCondition, AddStatus}

  /** The writer that respects reasons. */
  const REASON_KEEPERS: set<Writer> := {SetCondition}

  /** Call k is the last call for `kind` that is not a keeper's call with an unchanged status: the calls for
      `kind` after it are by keepers and have its status, and it is by another writer or the call for
      `kind` before it, if any, had another status. */
  ghost predicate StartsRun(keepers: set<Writer>, calls: seq<Call>, kind: Kind, k: nat) {
    && k < |calls| && calls[k].c.kind == kind
    && (forall j :: k < j < |calls| && calls[j].c.kind == kind ==>
          calls[j].writer in keepers && calls[j].c.status == calls[k].c.status)
    && (calls[k].writer in keepers ==>
          forall j :: 0 <= j < k && calls[j].c.kind == kind && NoneBetween(calls, kind, j, k) ==>
            calls[j].c.status != calls[k].c.status)
  }

  /** A call after the run that is no keeper's with the same status. */
  predicate EndsRun(keepers: set<Writer>, call: Call, status: Truth) {
    call.writer !in keepers || call.c.status != status
  }

  lemma StartsRunStays(keepers: set<Writer>, calls: seq<Call>, call: Call, kind: Kind, k: nat)
    requires StartsRun(keepers, calls, kind, k)
    requires call.c.kind != kind || !EndsRun(keepers, call, calls[k].c.status)
    ensures StartsRun(keepers, calls + [call], kind, k)
  {
    var more := calls + [call];
    forall j | more[k].writer in keepers && 0 <= j < k && more[j].c.kind == kind && NoneBetween(more, kind, j, k)
      ensures more[j].c.status != more[k].c.status
    {
      forall i | j < i < k && 0 <= i < |calls| ensures calls[i].c.kind != kind {
        assert more[i] == calls[i];
      }
      assert NoneBetween(calls, kind, j, k);
    }
  }

  lemma StartsRunAnew(keepers: set<Writer>, calls: seq<Call>, call: Call, kind: Kind, k: nat)
    requires StartsRun(keepers, calls, kind, k)
    requires call.c.kind == kind && EndsRun(keepers, call, calls[k].c.status)
    ensures StartsRun(keepers, calls + [call], kind, |calls|)
  {
    var more := calls + [call];
    forall j | 0 <= j < k ensures !NoneBetween(more, kind, j, |calls|) {
      assert more[k].c.kind == kind;
    }
    assert forall j :: k <= j < |calls| && more[j].c.kind == kind ==> more[j].c.status == calls[k].c.status;
  }

  /** What the four writers do to status, time and reason of a condition they find. */
  lemma MergedFields(w: Writer, found: Option<Condition>, c: Condition)
    ensures Merged(w, found, c).status == c.status
    ensures Merged(w, found, c).time ==
            if found.Some? && !EndsRun(TIME_KEEPERS, Call(w, c), found.value.status) then found.value.time else c.time
    ensures found.Some? && found.value.kind == c.kind ==>
              Merged(w, found, c).reason ==
              if EndsRun(REASON_KEEPERS, Call(w, c), found.value.status) then c.reason else found.value.reason
    ensures found.None? ==> Merged(w, found, c) == c
  {
  }

  /** No call was for the kind. */
  ghost predicate Untouched(calls: seq<Call>, kind: Kind) {
    forall j :: 0 <= j < |calls| ==> calls[j].c.kind != kind
  }

  lemma FirstCallStarts(keepers: set<Writer>, calls: seq<Call>, call: Call, kind: Kind)
    requires Untouched(calls, kind) && call.c.kind == kind
    ensures StartsRun(keepers, calls + [call], kind, |calls|)
  {
  }

  lemma UntouchedOneMore(calls: seq<Call>, call: Call, kind: Kind)
    ensures Untouched(calls + [call], kind) <==> Untouched(calls, kind) && call.c.kind != kind
  {
    var more := calls + [call];
    assert more[|calls|] == call && forall j :: 0 <= j < |calls| ==> more[j] == calls[j];
  }

  /** The start of the trailing run after one more call; the status stored is that of the last call. */
  ghost predicate TrailingRun(keepers: set<Writer>, calls: seq<Call>, kind: Kind, now: Option<Condition>, k: nat) {
    && (now.None? <==> Untouched(calls, kind))
    && (now.Some? ==>
          now.value.kind == kind && StartsRun(keepers, calls, kind, k) && now.value.status == calls[k].c.status)
  }

  lemma TrailingRunStep(keepers: set<Writer>, calls: seq<Call>, call: Call, kind: Kind, before: Option<Condition>,
                        k: nat)
    returns (k': nat)
    requires TrailingRun(keepers, calls, kind, before, k)
    ensures TrailingRun(keepers, calls + [call], kind,
                    if call.c.kind == kind then Some(Merged(call.writer, before, call.c)) else before, k')
    ensures k' == if call.c.kind == kind && (before.None? || EndsRun(keepers, call, before.value.status))
                  then |calls| else k
    ensures before.Some? ==> k < |calls|
  {
    k' := k;
    UntouchedOneMore(calls, call, kind);
    MergedFields(call.writer, before, call.c);
    if before.Some? {
      StartsWithin(keepers, calls, kind, k);
    }
    if call.c.kind == kind {
      MergedKind(call.writer, before, call.c);
    }
    hide Merged, EndsRun, Untouched, StartsRun;
    if before.None? {
      if call.c.kind == kind {
        FirstCallStarts(keepers, calls, call, kind);
        k' := |calls|;
      }
    } else if call.c.kind == kind && EndsRun(keepers, call, before.value.status) {
      StartsRunAnew(keepers, calls, call, kind, k);
      k' := |calls|;
    } else {
      StartsRunStays(keepers, calls, call, kind, k);
    }
  }

  lemma MergedKind(w: Writer, found: Option<Condition>, c: Condition)
    requires found.Some? ==> found.value.kind == c.kind
    ensures Merged(w, found, c).kind == c.kind
  {
  }

  lemma StartsWithin(keepers: set<Writer>, calls: seq<Call>, kind: Kind, k: nat)
    requires StartsRun(keepers, calls, kind, k)
    ensures k < |calls|
  {
  }

  /** The condition now stored carries status and time of the call that started the trailing run. */
  ghost predicate Timed(calls: seq<Call>, kind: Kind, now: Option<Condition>, k: nat) {
    TrailingRun(TIME_KEEPERS, calls, kind, now, k) && (now.Some? ==> k < |calls| && now.value.time == calls[k].c.time)
  }

  /** The condition now stored carries status and reason of the call that started the trailing run. */
  ghost predicate Reasoned(calls: seq<Call>, kind: Kind, now: Option<Condition>, k: nat) {
    && TrailingRun(REASON_KEEPERS, calls, kind, now, k)
    && (now.Some? ==> k < |calls| && now.value.reason == calls[k].c.reason)
  }

  lemma TimedStep(calls: seq<Call>, call: Call, kind: Kind, before: Option<Condition>, k: nat) returns (k': nat)
    requires Timed(calls, kind, before, k)
    ensures Timed(calls + [call], kind,
                  if call.c.kind == kind then Some(Merged(call.writer, before, call.c)) else before, k')
  {
    hide TrailingRun, Merged, EndsRun;
    MergedFields(call.writer, before, call.c);
    assert call == Call(call.writer, call.c);
    k' := TrailingRunStep(TIME_KEEPERS, calls, call, kind, before, k);
  }

  lemma ReasonedStep(calls: seq<Call>, call: Call, kind: Kind, before: Option<Condition>, k: nat) returns (k': nat)
    requires Reasoned(calls, kind, before, k)
    ensures Reasoned(calls + [call], kind,
                     if call.c.kind == kind then Some(Merged(call.writer, before, call.c)) else before, k')
  {
    assert before.Some? ==> before.value.kind == kind;
    hide TrailingRun, Merged, EndsRun;
    MergedFields(call.writer, before, call.c);
    assert call == Call(call.writer, call.c);
    k' := TrailingRunStep(REASON_KEEPERS, calls, call, kind, before, k);
  }

  /** After any mix of the four writers, starting with the kind absent: status and transition time are those
      of the last call that replaced the condition or changed its status. */
  lemma {:induction false} TransitionTime(cs: seq<Condition>, calls: seq<Call>, kind: Kind) returns (k: nat)
    requires Lookup(cs, kind).None?
    ensures Timed(calls, kind, Lookup(WriteAll(cs, calls), kind), k)
  {
    k := 0;
    if calls != [] {
      var n := |calls| - 1;
      var init, last := calls[..n], calls[n];
      hide Timed, Merged, Lookup, Write;
      k := TransitionTime(cs, init, kind);
      WriteLooksUp(last.writer, WriteAll(cs, init), last.c, kind);
      k := TimedStep(init, last, kind, Lookup(WriteAll(cs, init), kind), k);
      assert calls == init + [last];
    }
  }

  /** After any mix of the four writers, starting with the kind absent: the reason is that of the last call that
      is not a setAutoIndexerCondition with an unchanged status. */
  lemma {:induction false} LastReason(cs: seq<Condition>, calls: seq<Call>, kind: Kind) returns (k: nat)
    requires Lookup(cs, kind).None?
    ensures Reasoned(calls, kind, Lookup(WriteAll(cs, calls), kind), k)
  {
    k := 0;
    if calls != [] {
      var n := |calls| - 1;
      var init, last := calls[..n], calls[n];
      hide Reasoned, Merged, Lookup, Write;
      k := LastReason(cs, init, kind);
      WriteLooksUp(last.writer, WriteAll(cs, init), last.c, kind);
      k := ReasonedStep(init, last, kind, Lookup(WriteAll(cs, init), kind), k);
      assert calls == init + [last];
    }
  }

  /** Only writers that respect transition times write this kind. */
  ghost predicate KeepsTimes(calls: seq<Call>, kind: Kind) {
    forall k :: 0 <= k < |calls| && calls[k].c.kind == kind ==> calls[k].writer in {SetCondition, AddStatus}
  }

  /** When only those write the kind, the time is that of the first call of the trailing run of equal
      statuses: the status is the same from k on and differs in the call for `kind` before k. */
  lemma KeptTransitionTime(cs: seq<Condition>, calls: seq<Call>, kind: Kind) returns (k: nat)
    requires Lookup(cs, kind).None? && KeepsTimes(calls, kind) && !Untouched(calls, kind)
    ensures k < |calls| && calls[k].c.kind == kind
    ensures Lookup(WriteAll(cs, calls), kind).Some?
    ensures Lookup(WriteAll(cs, calls), kind).value.time == calls[k].c.time
    ensures forall j :: k <= j < |calls| && calls[j].c.kind == kind ==> calls[j].c.status == calls[k].c.status
    ensures forall j :: 0 <= j < k && calls[j].c.kind == kind && NoneBetween(calls, kind, j, k) ==>
                        calls[j].c.status != calls[k].c.status
  {
    hide Lookup, WriteAll;
    k := TransitionTime(cs, calls, kind);
  }

  lemma LastBefore(calls: seq<Call>, kind: Kind, k: nat, m: nat) returns (j: nat)
    requires k < m <= |calls| && calls[k].c.kind == kind
    ensures k <= j < m && calls[j].c.kind == kind && NoneBetween(calls, kind, j, m)
  {
    j := m - 1;
    while calls[j].c.kind != kind
      invariant k <= j < m && NoneBetween(calls, kind, j, m)
      decreases j
    {
      j := j - 1;
    }
  }

  /** The start of the trailing run is unique, so the previous statements fix time and reason. */
  lemma RunStartIsUnique(keepers: set<Writer>, calls: seq<Call>, kind: Kind, k: nat, m: nat)
    requires StartsRun(keepers, calls, kind, k) && StartsRun(keepers, calls, kind, m) && k <= m
    ensures k == m
  {
    if k < m {
      var j := LastBefore(calls, kind, k, m);
    }
  }

  /** The other two writers store the new time although the status stays the same. */
  lemma ReplacingWritersResetTimes(w: Writer, cs: seq<Condition>, c: Condition)
    requires w in {UpdateStatus, BaseUpdate}
    ensures Lookup(Write(w, cs, c), c.kind) == Some(c)
  {
    WriteLooksUp(w, cs, c, c.kind);
  }

  // ---- The error flag ----

  /** Writing another kind leaves the error flag alone; writing the error kind sets it, and from
      distinct kinds it is then exactly what was written. */
  lemma WriteMovesFlag(w: Writer, cs: seq<Condition>, c: Condition)
    ensures c.kind != ErrorKind ==> (HadErrors(Write(w, cs, c)) <==> HadErrors(cs))
    ensures c.kind == ErrorKind && c.status == True ==> HadErrors(Write(w, cs, c))
    ensures c.kind == ErrorKind && DistinctKinds(cs) ==> (HadErrors(Write(w, cs, c)) <==> c.status == True)
  {
    var after := Write(w, cs, c);
    var k := Position(cs, c.kind);
    assert after[k].kind == c.kind && after[k].status == c.status;
    if c.kind != ErrorKind {
      assert forall j :: 0 <= j < |cs| && j != k ==> after[j] == cs[j];
    } else if DistinctKinds(cs) {
      WriteKeepsOrder(w, cs, c);
    }
  }

  /** The flag is up exactly if the error condition is there and True; Unknown does not raise it. */
  lemma FlagIsLookup(cs: seq<Condition>)
    requires DistinctKinds(cs)
    ensures HadErrors(cs) <==> Lookup(cs, ErrorKind).Some? && Lookup(cs, ErrorKind).value.status == True
  {
    var k := Position(cs, ErrorKind);
    if j :| 0 <= j < |cs| && cs[j].kind == ErrorKind && cs[j].status == True {
      assert k < |cs| && cs[k].kind == ErrorKind;
    }
  }
}
