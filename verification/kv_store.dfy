/** The shared key of one kind of record, written by read-compute-compare-and-swap loops. */
module KvStore {
  import opened Wrappers
  import opened Collections

  datatype Write<V> = StoreMany(items: seq<(string, V)>) | DeleteMany(ids: seq<string>)

  function IdSet(ids: seq<string>): set<string> {
    set i | 0 <= i < |ids| :: ids[i]
  }

  function Apply<V>(w: Write<V>, data: map<string, V>): map<string, V> {
    match w
    case StoreMany(items) => PutAll(data, items)
    case DeleteMany(ids) => DropAll(data, IdSet(ids))
  }

  /** A delete that finds none of its ids writes nothing; a store always writes. */
  predicate HasEffect<V>(w: Write<V>, data: map<string, V>) {
    w.DeleteMany? ==> IdSet(w.ids) * data.Keys != {}
  }

  /** The value after the writes, oldest first. */
  function Fold<V>(data: map<string, V>, writes: seq<Write<V>>): map<string, V> {
    if writes == [] then data else Apply(writes[|writes| - 1], Fold(data, writes[..|writes| - 1]))
  }

  /** A store leaves under each of its keys the last value given for it, a delete leaves none of its ids, and
      both leave everything else. */
  lemma ApplyAt<V>(w: Write<V>, data: map<string, V>, k: string)
    ensures w.DeleteMany? ==> (k in Apply(w, data) <==> k in data && k !in w.ids)
    ensures w.DeleteMany? && k in Apply(w, data) ==> Apply(w, data)[k] == data[k]
    ensures w.StoreMany? && (forall i :: 0 <= i < |w.items| ==> w.items[i].0 != k) ==>
              (k in Apply(w, data) <==> k in data) && (k in data ==> Apply(w, data)[k] == data[k])
    ensures w.StoreMany? ==> forall i :: 0 <= i < |w.items| && w.items[i].0 == k && (forall j :: i < j < |w.items| ==> w.items[j].0 != k) ==>
              k in Apply(w, data) && Apply(w, data)[k] == w.items[i].1
  {
    if w.StoreMany? {
      PutAllAt(data, w.items, k);
      forall i | 0 <= i < |w.items| && w.items[i].0 == k && (forall j :: i < j < |w.items| ==> w.items[j].0 != k)
        ensures k in Apply(w, data) && Apply(w, data)[k] == w.items[i].1
      {
        PutAllLast(data, w.items, i);
      }
    }
  }

  /** Every write has an effect but a delete of ids that are not there. */
  lemma EffectIff<V>(w: Write<V>, data: map<string, V>)
    ensures HasEffect(w, data) <==> w.StoreMany? || exists i :: 0 <= i < |w.ids| && w.ids[i] in data
  {
    if w.DeleteMany? {
      if i :| 0 <= i < |w.ids| && w.ids[i] in data { assert w.ids[i] in IdSet(w.ids) * data.Keys; }
      if HasEffect(w, data) {
        var x :| x in IdSet(w.ids) * data.Keys;
        var i :| 0 <= i < |w.ids| && w.ids[i] == x;
      }
    }
  }

  /** One of the writes, made one after another, has an effect. */
  ghost predicate SomeEffect<V>(data: map<string, V>, writes: seq<Write<V>>) {
    writes != []
    && var front := writes[..|writes| - 1];
       SomeEffect(data, front) || HasEffect(writes[|writes| - 1], Fold(data, front))
  }

  /** The value before the k-th attempt, and whether that attempt comes to nothing: it has something to write,
      and others write between its read and its update. */
  function Before<V>(data: map<string, V>, others: seq<seq<Write<V>>>, k: nat): map<string, V>
    requires k <= |others|
  {
    Fold(data, Flatten(others[..k]))
  }

  ghost predicate Lost<V>(w: Write<V>, data: map<string, V>, others: seq<seq<Write<V>>>, k: nat)
    requires k < |others|
  {
    HasEffect(w, Before(data, others, k)) && SomeEffect(Before(data, others, k), others[k])
  }

  // ---------- one loop of reads, updates and retries ----------

  /** The key's current entry. */
  class SharedKey<V> {
    var data: map<string, V>
    var revision: nat

    constructor ()
      ensures data == map[] && revision == 0
    {
      data, revision := map[], 0;
    }

    /** Accepts the new value only when the key is still at the expected revision. */
    method Update(newData: map<string, V>, expected: nat) returns (ok: bool)
      modifies this
      ensures ok <==> old(revision) == expected
      ensures data == if ok then newData else old(data)
      ensures revision == old(revision) + if ok then 1 else 0
    {
      ok := revision == expected;
      if ok { data, revision := newData, revision + 1; }
    }

    /** Another process completes a write. */
    method Elsewhere(w: Write<V>)
      modifies this
      ensures data == Apply(w, old(data))
      ensures revision == old(revision) + if HasEffect(w, old(data)) then 1 else 0
    {
      var current := Compute(w, data);
      if current.Some? {
        data, revision := current.value, revision + 1;
      } else {
        NoEffect(w, data);
      }
    }

    method AllElsewhere(writes: seq<Write<V>>)
      modifies this
      ensures data == Fold(old(data), writes) && revision >= old(revision)
      ensures revision == old(revision) ==> data == old(data)
      ensures revision > old(revision) <==> SomeEffect(old(data), writes)
    {
      for i := 0 to |writes|
        invariant data == Fold(old(data), writes[..i]) && revision >= old(revision)
        invariant revision == old(revision) ==> data == old(data)
        invariant revision > old(revision) <==> SomeEffect(old(data), writes[..i])
      {
        assert writes[..i + 1][..i] == writes[..i];
        if !HasEffect(writes[i], data) { NoEffect(writes[i], data); }
        Elsewhere(writes[i]);
      }
      assert writes[..|writes|] == writes;
    }

    /** The updater: the new value, or nothing to write. */
    static method Compute(w: Write<V>, current: map<string, V>) returns (r: Option<map<string, V>>)
      ensures r == if HasEffect(w, current) then Some(Apply(w, current)) else None
    {
      var currentData := current;
      match w {
        case StoreMany(items) =>
          for i := 0 to |items|
            invariant currentData == PutAll(current, items[..i])
          {
            assert items[..i + 1][..i] == items[..i];
            currentData := currentData[items[i].0 := items[i].1];
          }
          assert items[..|items|] == items;
        case DeleteMany(ids) =>
          var updated := false;
          for i := 0 to |ids|
            invariant currentData == DropAll(current, IdSet(ids[..i]))
            invariant updated <==> IdSet(ids[..i]) * current.Keys != {}
          {
            assert IdSet(ids[..i + 1]) == IdSet(ids[..i]) + {ids[i]};
            if ids[i] in currentData {
              assert ids[i] in IdSet(ids[..i + 1]) * current.Keys;
              currentData := currentData - {ids[i]};
              updated := true;
            } else {
              assert IdSet(ids[..i + 1]) * current.Keys == IdSet(ids[..i]) * current.Keys;
            }
          }
          assert ids[..|ids|] == ids;
          if !updated { return None; }
      }
      return Some(currentData);
    }

    /** Between the k-th read and the conditional update that follows it, others[k] is what the other
        processes write. The loop times out when the list is used up; it goes on only as long as others get
        in between. */
    method UpdateWithRetries(w: Write<V>, others: seq<seq<Write<V>>>) returns (ok: bool, rounds: nat)
      modifies this
      ensures rounds <= |others| && (!ok ==> rounds == |others|)
      ensures ok ==> data == Apply(w, Fold(old(data), Flatten(others[..rounds])))
      ensures !ok ==> data == Fold(old(data), Flatten(others))
      ensures !ok ==> forall k :: 0 <= k < |others| ==> Lost(w, old(data), others, k)
      ensures ok ==> forall k :: 0 <= k < rounds - 1 ==> Lost(w, old(data), others, k)
      ensures ok ==> || !HasEffect(w, Before(old(data), others, rounds))
                     || (rounds > 0 && !SomeEffect(Before(old(data), others, rounds - 1), others[rounds - 1]))
    {
      rounds := 0;
      while rounds < |others|
        invariant rounds <= |others|
        invariant data == Before(old(data), others, rounds)
        invariant forall k :: 0 <= k < rounds ==> Lost(w, old(data), others, k)
      {
        var current, read := data, revision;
        var updated := Compute(w, current);
        if updated.None? {
          NoEffect(w, current);
          return true, rounds;
        }
        AllElsewhere(others[rounds]);
        FoldAppend(old(data), Flatten(others[..rounds]), others[rounds]);
        assert others[..rounds + 1][..rounds] == others[..rounds];
        rounds := rounds + 1;
        var accepted := Update(updated.value, read);
        if accepted { return true, rounds; }
      }
      assert others[..|others|] == others;
      return false, rounds;
    }
  }

  function Flatten<T>(batches: seq<seq<T>>): seq<T> {
    if batches == [] then [] else Flatten(batches[..|batches| - 1]) + batches[|batches| - 1]
  }

  lemma NoEffect<V>(w: Write<V>, data: map<string, V>)
    requires !HasEffect(w, data)
    ensures Apply(w, data) == data
  {
    assert forall k :: k in data ==> k !in IdSet(w.ids) * data.Keys;
  }

  lemma {:induction false} FoldAppend<V>(data: map<string, V>, a: seq<Write<V>>, b: seq<Write<V>>)
    ensures Fold(data, a + b) == Fold(Fold(data, a), b)
  {
    if b == [] {
      assert a + b == a;
    } else {
      assert (a + b)[..|a + b| - 1] == a + b[..|b| - 1];
      FoldAppend(data, a, b[..|b| - 1]);
    }
  }

  // ---------- any number of loops, interleaved ----------

  /** One accepted update: the write that made it, the revision it got and the value it stored. */
  datatype Entry<V> = Entry(op: nat, revision: nat, value: map<string, V>)

  /** Where one write is in its loop. Positions are lengths of the key's history: at the call (born),
      at the latest read, and at the return. */
  datatype Phase<V> =
    | Idle
    | Looping(born: nat)
    | Computed(born: nat, data: map<string, V>, revision: nat, read: nat)
    | Accepted(born: nat, index: nat)
    | OkWrote(born: nat, index: nat, returned: nat)
    | OkNothing(born: nat, read: nat, returned: nat)
    | FailedPending(data: map<string, V>, revision: nat)  // returned an error with its update still on the way
    | Failed

  /** The key's history and every write's phase. */
  datatype Kv<V> = Kv(log: seq<Entry<V>>, phases: seq<Phase<V>>)

  function ValueAt<V>(log: seq<Entry<V>>, n: nat): map<string, V>
    requires n <= |log|
  {
    if n == 0 then map[] else log[n - 1].value
  }

  function RevisionAt<V>(log: seq<Entry<V>>, n: nat): nat
    requires n <= |log|
  {
    if n == 0 then 0 else log[n - 1].revision
  }

  datatype Move =
    | Call(i: nat)
    | Read(i: nat)
    | TryUpdate(i: nat, next: nat)  // next: the revision the store would assign
    | Reply(i: nat)
    | GiveUp(i: nat)                // timeout, or any error but a wrong revision
    | LateUpdate(i: nat, next: nat)

  /** The store accepts data as computed by write i if the key is still at the revision that was read. */
  predicate Accepts<V>(s: Kv<V>, revision: nat, next: nat) {
    revision == RevisionAt(s.log, |s.log|) && next > revision
  }

  function NextPhase<V>(ops: seq<Write<V>>, s: Kv<V>, m: Move): Phase<V>
    requires m.i < |ops| == |s.phases|
  {
    var p, now := s.phases[m.i], |s.log|;
    match m
    case Call(_) => if p.Idle? then Looping(now) else p
    case Read(_) =>
      if p.Looping? then Computed(p.born, ValueAt(s.log, now), RevisionAt(s.log, now), now) else p
    case TryUpdate(i, next) =>
      if !p.Computed? then p
      else if !HasEffect(ops[i], p.data) then OkNothing(p.born, p.read, now)
      else if Accepts(s, p.revision, next) then Accepted(p.born, now)
      else Looping(p.born)
    case Reply(_) => if p.Accepted? then OkWrote(p.born, p.index, now) else p
    case GiveUp(i) =>
      if p.Computed? && HasEffect(ops[i], p.data) then FailedPending(p.data, p.revision)
      else if p.Computed? || p.Looping? || p.Accepted? then Failed
      else p
    case LateUpdate(_, _) => if p.FailedPending? then Failed else p
  }

  /** The entry that the move adds to the history, if any. */
  function NewEntry<V>(ops: seq<Write<V>>, s: Kv<V>, m: Move): Option<Entry<V>>
    requires m.i < |ops| == |s.phases|
  {
    var p := s.phases[m.i];
    if m.TryUpdate? && p.Computed? && HasEffect(ops[m.i], p.data) && Accepts(s, p.revision, m.next) then
      Some(Entry(m.i, m.next, Apply(ops[m.i], p.data)))
    else if m.LateUpdate? && p.FailedPending? && Accepts(s, p.revision, m.next) then
      Some(Entry(m.i, m.next, Apply(ops[m.i], p.data)))
    else None
  }

  function Next<V>(ops: seq<Write<V>>, s: Kv<V>, m: Move): (s': Kv<V>)
    requires |s.phases| == |ops|
    ensures |s'.phases| == |ops|
  {
    if m.i >= |ops| then s
    else
      var entry := NewEntry(ops, s, m);
      Kv(if entry.Some? then s.log + [entry.value] else s.log, s.phases[m.i := NextPhase(ops, s, m)])
  }

  function Interleave<V>(ops: seq<Write<V>>, s: Kv<V>, moves: seq<Move>): (s': Kv<V>)
    requires |s.phases| == |ops|
    ensures |s'.phases| == |ops|
  {
    if moves == [] then s else Next(ops, Interleave(ops, s, moves[..|moves| - 1]), moves[|moves| - 1])
  }

  function Start<V>(ops: seq<Write<V>>): Kv<V> {
    Kv([], seq(|ops|, _ => Idle))
  }

  ghost predicate InLog<V>(log: seq<Entry<V>>, i: nat) {
    exists k :: 0 <= k < |log| && log[k].op == i
  }

  ghost predicate EntryFits<V>(ops: seq<Write<V>>, log: seq<Entry<V>>, k: nat)
    requires k < |log|
  {
    && log[k].op < |ops| && log[k].value == Apply(ops[log[k].op], ValueAt(log, k))
    && RevisionAt(log, k) < log[k].revision
  }

  /** Every entry applies its write to the value just before it, at a larger revision, and no write has
      two entries. */
  ghost predicate LogInv<V>(ops: seq<Write<V>>, log: seq<Entry<V>>) {
    && (forall k :: 0 <= k < |log| ==> log[k].op < |ops|)
    && (forall k :: 0 <= k < |log| ==> EntryFits(ops, log, k))
    && (forall j, k :: 0 <= j < k < |log| ==> log[j].op != log[k].op)
  }

  /** What a loop holds is the value of some moment of the history. */
  ghost predicate IsSnapshot<V>(log: seq<Entry<V>>, data: map<string, V>, revision: nat, read: nat) {
    read <= |log| && revision == RevisionAt(log, read) && data == ValueAt(log, read)
  }

  ghost predicate PhaseInv<V>(w: Write<V>, log: seq<Entry<V>>, p: Phase<V>, i: nat) {
    match p
    case Idle => !InLog(log, i)
    case Looping(born) => !InLog(log, i) && born <= |log|
    case Computed(born, data, revision, read) => !InLog(log, i) && born <= read && IsSnapshot(log, data, revision, read)
    case Accepted(born, index) => born <= index < |log| && log[index].op == i
    case OkWrote(born, index, returned) => born <= index < returned <= |log| && log[index].op == i
    case OkNothing(born, read, returned) =>
      !InLog(log, i) && born <= read <= returned <= |log| && !HasEffect(w, ValueAt(log, read))
    case FailedPending(data, revision) => !InLog(log, i) && exists read :: IsSnapshot(log, data, revision, read)
    case Failed => true
  }

  ghost predicate KvInv<V>(ops: seq<Write<V>>, s: Kv<V>) {
    && |s.phases| == |ops| && LogInv(ops, s.log)
    && forall i :: 0 <= i < |ops| ==> PhaseInv(ops[i], s.log, s.phases[i], i)
  }

  lemma {:induction false} RevisionsIncrease<V>(ops: seq<Write<V>>, log: seq<Entry<V>>, j: nat, k: nat)
    requires LogInv(ops, log) && j < k <= |log|
    ensures RevisionAt(log, j) < RevisionAt(log, k)
    decreases k
  {
    assert EntryFits(ops, log, k - 1);
    if j < k - 1 { RevisionsIncrease(ops, log, j, k - 1); }
  }

  /** A revision that still matches means that nothing was committed since the read. */
  lemma FreshSnapshot<V>(ops: seq<Write<V>>, log: seq<Entry<V>>, data: map<string, V>, revision: nat, read: nat)
    requires LogInv(ops, log) && IsSnapshot(log, data, revision, read) && revision == RevisionAt(log, |log|)
    ensures data == ValueAt(log, |log|)
  {
    if read != |log| {
      RevisionsIncrease(ops, log, read, |log|);
      assert false;
    }
  }

  lemma AppendKeepsLog<V>(ops: seq<Write<V>>, log: seq<Entry<V>>, e: Entry<V>)
    requires LogInv(ops, log) && e.op < |ops| && !InLog(log, e.op)
    requires e.value == Apply(ops[e.op], ValueAt(log, |log|)) && RevisionAt(log, |log|) < e.revision
    ensures LogInv(ops, log + [e])
  {
    var log' := log + [e];
    forall k | 0 <= k < |log'|
      ensures log'[k].op < |ops| && EntryFits(ops, log', k)
    {
      if k < |log| { assert EntryFits(ops, log, k); }
      assert ValueAt(log', k) == ValueAt(log, k) && RevisionAt(log', k) == RevisionAt(log, k);
    }
  }

  lemma AppendKeepsPhase<V>(w: Write<V>, log: seq<Entry<V>>, e: Entry<V>, p: Phase<V>, i: nat)
    requires PhaseInv(w, log, p, i) && e.op != i
    ensures PhaseInv(w, log + [e], p, i)
  {
    var log' := log + [e];
    assert forall n :: 0 <= n <= |log| ==> ValueAt(log', n) == ValueAt(log, n) && RevisionAt(log', n) == RevisionAt(log, n);
    assert InLog(log', i) ==> InLog(log, i);
    if p.FailedPending? {
      var read :| IsSnapshot(log, p.data, p.revision, read);
      assert IsSnapshot(log', p.data, p.revision, read);
    }
  }

  /** The moved write itself. */
  lemma MoveKeepsPhase<V>(ops: seq<Write<V>>, s: Kv<V>, m: Move)
    requires |s.phases| == |ops| && m.i < |ops| && PhaseInv(ops[m.i], s.log, s.phases[m.i], m.i)
    ensures NewEntry(ops, s, m).None? ==> PhaseInv(ops[m.i], s.log, NextPhase(ops, s, m), m.i)
    ensures NewEntry(ops, s, m).Some? ==>
              PhaseInv(ops[m.i], s.log + [NewEntry(ops, s, m).value], NextPhase(ops, s, m), m.i)
  {
    var p := s.phases[m.i];
    if m.Read? && p.Looping? {
      assert IsSnapshot(s.log, ValueAt(s.log, |s.log|), RevisionAt(s.log, |s.log|), |s.log|);
    }
    if m.GiveUp? && p.Computed? { assert IsSnapshot(s.log, p.data, p.revision, p.read); }
  }

  /** What is committed was computed from the value it replaces. */
  lemma NewEntryFresh<V>(ops: seq<Write<V>>, s: Kv<V>, m: Move)
    requires |s.phases| == |ops| && LogInv(ops, s.log)
    requires m.i < |ops| && PhaseInv(ops[m.i], s.log, s.phases[m.i], m.i) && NewEntry(ops, s, m).Some?
    ensures !InLog(s.log, m.i)
    ensures NewEntry(ops, s, m).value.value == Apply(ops[m.i], ValueAt(s.log, |s.log|))
  {
    var p := s.phases[m.i];
    var read :| IsSnapshot(s.log, p.data, p.revision, read);
    FreshSnapshot(ops, s.log, p.data, p.revision, read);
  }

  lemma MoveKeeps<V>(ops: seq<Write<V>>, s: Kv<V>, m: Move)
    requires KvInv(ops, s)
    ensures KvInv(ops, Next(ops, s, m))
  {
    if m.i < |ops| {
      var s', entry := Next(ops, s, m), NewEntry(ops, s, m);
      if entry.Some? {
        NewEntryFresh(ops, s, m);
        AppendKeepsLog(ops, s.log, entry.value);
      }
      forall i | 0 <= i < |ops| ensures PhaseInv(ops[i], s'.log, s'.phases[i], i) {
        if i == m.i {
          MoveKeepsPhase(ops, s, m);
        } else if entry.Some? {
          AppendKeepsPhase(ops[i], s.log, entry.value, s.phases[i], i);
        }
      }
    }
  }

  lemma {:induction false} InterleaveKeeps<V>(ops: seq<Write<V>>, s: Kv<V>, moves: seq<Move>)
    requires KvInv(ops, s)
    ensures KvInv(ops, Interleave(ops, s, moves))
  {
    if moves != [] {
      InterleaveKeeps(ops, s, moves[..|moves| - 1]);
      MoveKeeps(ops, Interleave(ops, s, moves[..|moves| - 1]), moves[|moves| - 1]);
    }
  }

  /** The writes that the first n entries made, oldest first. */
  function Committed<V>(ops: seq<Write<V>>, log: seq<Entry<V>>, n: nat): seq<Write<V>>
    requires n <= |log| && forall k :: 0 <= k < |log| ==> log[k].op < |ops|
  {
    if n == 0 then [] else Committed(ops, log, n - 1) + [ops[log[n - 1].op]]
  }

  lemma {:induction false} ValueIsFold<V>(ops: seq<Write<V>>, log: seq<Entry<V>>, n: nat)
    requires LogInv(ops, log) && n <= |log|
    ensures ValueAt(log, n) == Fold(map[], Committed(ops, log, n))
  {
    if n > 0 {
      ValueIsFold(ops, log, n - 1);
      assert EntryFits(ops, log, n - 1);
      var writes := Committed(ops, log, n);
      assert writes[..|writes| - 1] == Committed(ops, log, n - 1);
    }
  }

  /** In every interleaving, at every position of the history: the value is the fold of the writes
      committed so far, in revision order. A write that returned Ok has exactly one entry, made between
      its call and its return; or it has none, and removes nothing from the value of some moment between
      its call and its return. A write that returned an error has at most one entry. */
  lemma Linearizable<V>(ops: seq<Write<V>>, moves: seq<Move>, n: nat, i: nat)
    requires n <= |Interleave(ops, Start(ops), moves).log| && i < |ops|
    ensures var s := Interleave(ops, Start(ops), moves);
      && LogInv(ops, s.log)
      && ValueAt(s.log, n) == Fold(map[], Committed(ops, s.log, n))
      && PhaseInv(ops[i], s.log, s.phases[i], i)
  {
    assert KvInv(ops, Start(ops));
    InterleaveKeeps(ops, Start(ops), moves);
    ValueIsFold(ops, Interleave(ops, Start(ops), moves).log, n);
  }

  ghost predicate Returned<V>(p: Phase<V>) {
    p.OkWrote? || p.OkNothing?
  }

  /** Alone, from its call or from the top of its loop, a write reads, commits at once what it makes of the
      latest value, and returns; or returns at once if it has no effect. */
  lemma CompletesAlone<V>(ops: seq<Write<V>>, s: Kv<V>, i: nat, next: nat)
    requires |s.phases| == |ops| && i < |ops| && (s.phases[i].Idle? || s.phases[i].Looping?) && next > RevisionAt(s.log, |s.log|)
    ensures var now := |s.log|;
      var s' := Next(ops, Next(ops, Next(ops, Next(ops, s, Call(i)), Read(i)), TryUpdate(i, next)), Reply(i));
      var born := if s.phases[i].Idle? then now else s.phases[i].born;
      if ops[i].StoreMany? || exists j :: 0 <= j < |ops[i].ids| && ops[i].ids[j] in ValueAt(s.log, now) then
        s'.log == s.log + [Entry(i, next, Apply(ops[i], ValueAt(s.log, now)))] && s'.phases[i] == OkWrote(born, now, now + 1)
      else
        s'.log == s.log && s'.phases[i] == OkNothing(born, now, now)
  {
    EffectIff(ops[i], ValueAt(s.log, |s.log|));
  }

  /** A write whose revision is not the key's any more goes back to the top of its loop. */
  lemma LostRaceRetries<V>(ops: seq<Write<V>>, s: Kv<V>, i: nat, next: nat)
    requires |s.phases| == |ops| && i < |ops| && s.phases[i].Computed? && s.phases[i].revision != RevisionAt(s.log, |s.log|)
    requires HasEffect(ops[i], s.phases[i].data)
    ensures Next(ops, s, TryUpdate(i, next)) == s.(phases := s.phases[i := Looping(s.phases[i].born)])
  {}

  /** A write that gives up with its update on the way may still land, later, if nothing was committed since
      its read; or it is lost. */
  lemma LateUpdateLands<V>(ops: seq<Write<V>>, s: Kv<V>, i: nat, next: nat)
    requires |s.phases| == |ops| && i < |ops| && s.phases[i].Computed? && HasEffect(ops[i], s.phases[i].data)
    ensures var given, p := Next(ops, s, GiveUp(i)), s.phases[i];
      && given.log == s.log && given.phases[i] == FailedPending(p.data, p.revision)
      && Next(ops, given, LateUpdate(i, next)) ==
           Kv(if p.revision == RevisionAt(s.log, |s.log|) && next > p.revision then s.log + [Entry(i, next, Apply(ops[i], p.data))] else s.log,
              s.phases[i := Failed])
  {}

  /** One that gives up before it has something to send, or after it was accepted, sends nothing more. */
  lemma GivesUp<V>(ops: seq<Write<V>>, s: Kv<V>, i: nat)
    requires |s.phases| == |ops| && i < |ops|
    requires s.phases[i].Looping? || s.phases[i].Accepted? || (s.phases[i].Computed? && !HasEffect(ops[i], s.phases[i].data))
    ensures Next(ops, s, GiveUp(i)) == s.(phases := s.phases[i := Failed])
  {}

  /** The moves are made one after another. */
  lemma MovesFollow<V>(ops: seq<Write<V>>, s: Kv<V>, moves: seq<Move>, m: Move)
    requires |s.phases| == |ops|
    ensures Interleave(ops, s, []) == s && Interleave(ops, s, moves + [m]) == Next(ops, Interleave(ops, s, moves), m)
  {
    assert (moves + [m])[..|moves|] == moves;
  }

  /** Where an operation takes effect: a commit after the reads of its position, before those of the next. */
  ghost function Point<V>(p: Phase<V>): nat
    requires Returned(p)
  {
    if p.OkWrote? then 2 * p.index + 1 else 2 * p.read
  }

  ghost predicate CalledAfter<V>(p: Phase<V>, n: nat) {
    p.Idle? || p.Failed? || p.FailedPending? || p.born >= n
  }

  lemma MoveKeepsOrder<V>(ops: seq<Write<V>>, s: Kv<V>, m: Move, a: nat, b: nat, n: nat)
    requires |s.phases| == |ops| && a < |ops| && b < |ops|
    requires Returned(s.phases[a]) && CalledAfter(s.phases[b], n) && n <= |s.log|
    ensures var s' := Next(ops, s, m);
      s'.phases[a] == s.phases[a] && CalledAfter(s'.phases[b], n) && |s.log| <= |s'.log|
  {
  }

  lemma {:induction false} LaterCall<V>(ops: seq<Write<V>>, s: Kv<V>, moves: seq<Move>, a: nat, b: nat)
    requires |s.phases| == |ops| && a < |ops| && b < |ops|
    requires Returned(s.phases[a]) && s.phases[b].Idle?
    ensures var s' := Interleave(ops, s, moves);
      s'.phases[a] == s.phases[a] && CalledAfter(s'.phases[b], |s.log|) && |s.log| <= |s'.log|
  {
    if moves != [] {
      var front := moves[..|moves| - 1];
      LaterCall(ops, s, front, a, b);
      MoveKeepsOrder(ops, Interleave(ops, s, front), moves[|moves| - 1], a, b, |s.log|);
    }
  }

  /** When a has returned before b is called, a takes effect before b. */
  lemma RealTimeOrder<V>(ops: seq<Write<V>>, s: Kv<V>, moves: seq<Move>, a: nat, b: nat)
    requires KvInv(ops, s) && a < |ops| && b < |ops|
    requires Returned(s.phases[a]) && s.phases[b].Idle? && Returned(Interleave(ops, s, moves).phases[b])
    ensures var s' := Interleave(ops, s, moves);
      && s'.phases[a] == s.phases[a]
      && (if s.phases[a].OkWrote? then Point(s.phases[a]) < Point(s'.phases[b])
          else Point(s.phases[a]) <= Point(s'.phases[b]))
  {
    LaterCall(ops, s, moves, a, b);
    InterleaveKeeps(ops, s, moves);
    assert PhaseInv(ops[a], s.log, s.phases[a], a);
    var s' := Interleave(ops, s, moves);
    assert PhaseInv(ops[b], s'.log, s'.phases[b], b);
  }
}
