/** The stored applications of one lattice and the list of their names: two keys, written one after the
    other. */
module ModelStore {
  import opened Wrappers
  import opened StoredManifests

  datatype Entry<+T> = Entry(value: T, revision: nat)

  /** The bucket's entries for one lattice. Revisions are taken from the bucket's counter. */
  datatype Bucket = Bucket(models: map<string, Entry<History>>, names: Option<Entry<set<string>>>, last: nat) {
    function Listed(): set<string> { if names.Some? then names.value.value else {} }

    function View(): (map<string, History>, set<string>) {
      (map n | n in models :: models[n].value, Listed())
    }

    ghost predicate Fresh() {
      && (forall n :: n in models ==> models[n].revision <= last)
      && (names.Some? ==> 0 < names.value.revision <= last)
    }
  }

  datatype NameOperation = Add(name: string) | Remove(name: string)

  /** The new list, or nothing to write. */
  function Change(op: NameOperation, names: Option<Entry<set<string>>>): Option<set<string>> {
    match op
    case Add(n) =>
      var list := if names.Some? then names.value.value else {};
      if n in list then None else Some(list + {n})
    case Remove(n) => if names.None? || n !in names.value.value then None else Some(names.value.value - {n})
  }

  function WriteNames(b: Bucket, op: NameOperation): Bucket {
    var change := Change(op, b.names);
    if change.None? then b else b.(names := Some(Entry(change.value, b.last + 1)), last := b.last + 1)
  }

  /** Conditional on the revision when that is positive, unconditional when it is absent or zero. */
  function WriteModel(b: Bucket, name: string, h: History, revision: Option<nat>): Option<Bucket> {
    if revision.GetOr(0) > 0 && !(name in b.models && b.models[name].revision == revision.value) then None
    else Some(b.(models := b.models[name := Entry(h, b.last + 1)], last := b.last + 1))
  }

  function Purge(b: Bucket, name: string): Bucket {
    b.(models := b.models - {name}, last := b.last + 1)
  }

  /** Writes of other processes to the list of names. */
  function WriteAll(b: Bucket, ops: seq<NameOperation>): Bucket {
    if ops == [] then b else WriteNames(WriteAll(b, ops[..|ops| - 1]), ops[|ops| - 1])
  }

  lemma {:induction false} WriteAllRevisions(b: Bucket, ops: seq<NameOperation>)
    requires b.Fresh()
    ensures WriteAll(b, ops).Fresh() && WriteAll(b, ops).models == b.models && WriteAll(b, ops).last >= b.last
    ensures WriteAll(b, ops).names == b.names || (WriteAll(b, ops).names.Some? && WriteAll(b, ops).names.value.revision > b.last)
  {
    if ops != [] { WriteAllRevisions(b, ops[..|ops| - 1]); }
  }

  function RevisionOf(names: Option<Entry<set<string>>>): nat {
    if names.Some? then names.value.revision else 0
  }

  /** The revision tells whether others have written. */
  lemma RevisionTells(b: Bucket, ops: seq<NameOperation>)
    requires b.Fresh()
    ensures WriteAll(b, ops).Fresh()
    ensures RevisionOf(WriteAll(b, ops).names) == RevisionOf(b.names) <==> WriteAll(b, ops).names == b.names
  {
    WriteAllRevisions(b, ops);
  }

  /** The bucket after the other processes' writes of the first k rounds. */
  function Disturbed(b: Bucket, others: seq<seq<NameOperation>>, k: nat): Bucket
    requires k <= |others|
  {
    if k == 0 then b else WriteAll(Disturbed(b, others, k - 1), others[k - 1])
  }

  const ATTEMPTS: nat := 3

  /** An attempt comes to nothing: there is something to write, and others write the list between its read and
      its update. */
  ghost predicate Lost(b: Bucket, op: NameOperation, others: seq<seq<NameOperation>>, k: nat)
    requires k < |others|
  {
    Change(op, Disturbed(b, others, k).names).Some? && Disturbed(b, others, k + 1).names != Disturbed(b, others, k).names
  }

  class ModelStorage {
    var bucket: Bucket

    constructor ()
      ensures bucket == Bucket(map[], None, 0)
    {
      bucket := Bucket(map[], None, 0);
    }

    /** Accepted only at the expected revision, zero when there is no list yet. */
    method UpdateNames(names: set<string>, expected: nat) returns (ok: bool)
      modifies this
      ensures ok <==> RevisionOf(old(bucket).names) == expected
      ensures bucket == if ok then old(bucket).(names := Some(Entry(names, old(bucket).last + 1)), last := old(bucket).last + 1)
                        else old(bucket)
    {
      ok := RevisionOf(bucket.names) == expected;
      if ok { bucket := bucket.(names := Some(Entry(names, bucket.last + 1)), last := bucket.last + 1); }
    }

    static method ChangeNames(op: NameOperation, names: Option<Entry<set<string>>>) returns (changed: Option<set<string>>)
      ensures changed == Change(op, names)
    {
      if names.None? && op.Remove? { return None; }
      var list := if names.Some? then names.value.value else {};
      match op {
        case Add(n) =>
          if n in list { return None; }
          list := list + {n};
        case Remove(n) =>
          if n !in list { return None; }
          list := list - {n};
      }
      return Some(list);
    }

    /** others[k] is what other processes write between the k-th read and the update that follows it. The
        operation takes effect on top of everything written before it, or not at all when each attempt comes
        to nothing. */
    method RetryModelUpdate(op: NameOperation, others: seq<seq<NameOperation>>) returns (ok: bool, rounds: nat)
      requires |others| == ATTEMPTS && bucket.Fresh()
      modifies this
      ensures rounds <= ATTEMPTS && bucket.Fresh()
      ensures ok ==> bucket == WriteNames(Disturbed(old(bucket), others, rounds), op)
      ensures !ok ==> rounds == ATTEMPTS && bucket == Disturbed(old(bucket), others, rounds)
      ensures forall k :: 0 <= k < (if ok then rounds - 1 else ATTEMPTS) ==> Lost(old(bucket), op, others, k)
      ensures ok ==> Change(op, Disturbed(old(bucket), others, rounds).names).None? || (rounds > 0 && !Lost(old(bucket), op, others, rounds - 1))
    {
      rounds := 0;
      while rounds < ATTEMPTS
        invariant rounds <= ATTEMPTS && bucket.Fresh()
        invariant bucket == Disturbed(old(bucket), others, rounds)
        invariant forall k :: 0 <= k < rounds ==> Lost(old(bucket), op, others, k)
      {
        var read := bucket.names;
        var revision := RevisionOf(read);
        var list := ChangeNames(op, read);
        if list.None? { return true, rounds; }
        ghost var before := bucket;
        bucket := WriteAll(bucket, others[rounds]);
        RevisionTells(before, others[rounds]);
        rounds := rounds + 1;
        var accepted := UpdateNames(list.value, revision);
        if accepted { return true, rounds; }
      }
      return false, rounds;
    }

    /** Other processes write to the list while the name is added. A list that could not be updated leaves the
        model stored. */
    method Set(h: History, revision: Option<nat>, others: seq<seq<NameOperation>>) returns (ok: bool, ghost rounds: nat)
      requires h.manifests != [] && bucket.Fresh() && |others| == ATTEMPTS
      modifies this
      ensures rounds <= ATTEMPTS
      ensures var name := h.manifests[|h.manifests| - 1].1.name;
              var written := WriteModel(old(bucket), name, h, revision);
              if written.None? then !ok && bucket == old(bucket)
              else
                && (ok ==> bucket == WriteNames(Disturbed(written.value, others, rounds), Add(name)))
                && (!ok ==> bucket == Disturbed(written.value, others, ATTEMPTS)
                            && forall k :: 0 <= k < ATTEMPTS ==> Lost(written.value, Add(name), others, k))
    {
      rounds := 0;
      var name := h.manifests[|h.manifests| - 1].1.name;
      var written := WriteModel(bucket, name, h, revision);
      if written.None? { return false, rounds; }
      bucket := written.value;
      var r;
      ok, r := RetryModelUpdate(Add(name), others);
      rounds := r;
    }

    /** A list that could not be updated leaves the model unpurged. */
    method Delete(name: string, others: seq<seq<NameOperation>>) returns (ok: bool, ghost rounds: nat)
      requires bucket.Fresh() && |others| == ATTEMPTS
      modifies this
      ensures rounds <= ATTEMPTS
      ensures ok ==> bucket == Purge(WriteNames(Disturbed(old(bucket), others, rounds), Remove(name)), name)
      ensures !ok ==> bucket == Disturbed(old(bucket), others, ATTEMPTS)
                      && forall k :: 0 <= k < ATTEMPTS ==> Lost(old(bucket), Remove(name), others, k)
    {
      var r;
      ok, r := RetryModelUpdate(Remove(name), others);
      rounds := r;
      if ok { bucket := Purge(bucket, name); }
    }
  }

  // ---------- what the writes do ----------

  /** A model is written unless another revision than the one it has was given; nothing else changes. */
  lemma ModelIsWritten(b: Bucket, name: string, h: History, revision: Option<nat>)
    requires b.Fresh()
    ensures WriteModel(b, name, h, revision).None? <==>
            revision.Some? && revision.value > 0 && (name !in b.models || b.models[name].revision != revision.value)
    ensures var w := WriteModel(b, name, h, revision);
      w.Some? ==>
        && w.value.models.Keys == b.models.Keys + {name} && w.value.models[name].value == h
        && w.value.models[name].revision > b.last && w.value.last == w.value.models[name].revision
        && (forall n :: n in b.models && n != name ==> w.value.models[n] == b.models[n])
        && w.value.names == b.names
  {}

  /** Adding a name leaves it listed and removing it does not; the rest of the list and the models stay, and so
      does the list's revision when there is nothing to change. */
  lemma ListIsWritten(b: Bucket, op: NameOperation)
    requires b.Fresh()
    ensures var w := WriteNames(b, op);
      && w.models == b.models
      && w.Listed() == (if op.Add? then b.Listed() + {op.name} else b.Listed() - {op.name})
      && (if op.name in b.Listed() <==> op.Add? then w == b
          else w.last > b.last && w.names.Some? && w.names.value.revision == w.last)
  {}

  lemma ModelIsPurged(b: Bucket, name: string)
    ensures Purge(b, name).models == b.models - {name} && Purge(b, name).names == b.names && Purge(b, name).last > b.last
  {}

  lemma Listing(b: Bucket, op: NameOperation, n: string)
    ensures n in WriteNames(b, op).Listed() <==> if op.name == n then op.Add? else n in b.Listed()
  {}

  /** Other processes' writes to the list leave a name that none is about, and of those about it the last
      decides. */
  lemma {:induction false} OthersLeave(b: Bucket, ops: seq<NameOperation>, n: string)
    requires forall i :: 0 <= i < |ops| ==> ops[i].name != n
    ensures n in WriteAll(b, ops).Listed() <==> n in b.Listed()
  {
    if ops != [] {
      OthersLeave(b, ops[..|ops| - 1], n);
      Listing(WriteAll(b, ops[..|ops| - 1]), ops[|ops| - 1], n);
    }
  }

  lemma {:induction false} OthersDecide(b: Bucket, ops: seq<NameOperation>, i: nat)
    requires i < |ops| && forall j :: i < j < |ops| ==> ops[j].name != ops[i].name
    ensures ops[i].name in WriteAll(b, ops).Listed() <==> ops[i].Add?
  {
    if i < |ops| - 1 { OthersDecide(b, ops[..|ops| - 1], i); }
    Listing(WriteAll(b, ops[..|ops| - 1]), ops[|ops| - 1], ops[i].name);
  }

  const UNDISTURBED: seq<seq<NameOperation>> := [[], [], []]

  lemma {:induction false} Quiet(b: Bucket, rounds: nat)
    requires rounds <= ATTEMPTS
    ensures Disturbed(b, UNDISTURBED, rounds) == b
  {
    if rounds > 0 { Quiet(b, rounds - 1); }
  }

  /** With no other writer about, what the calls make is what their two writes make. */
  lemma Alone(b: Bucket, name: string, h: History, revision: Option<nat>, rounds: nat)
    requires rounds <= ATTEMPTS
    ensures WriteModel(b, name, h, revision).Some? ==>
              WriteNames(Disturbed(WriteModel(b, name, h, revision).value, UNDISTURBED, rounds), Add(name)) ==
              Interrupted(b, SetCall(name, h, revision), 2)
    ensures Purge(WriteNames(Disturbed(b, UNDISTURBED, rounds), Remove(name)), name) == Interrupted(b, DeleteCall(name), 2)
  {
    Quiet(b, rounds);
    var written := WriteModel(b, name, h, revision);
    if written.Some? { Quiet(written.value, rounds); }
  }

  // ---------- calls that stop after some of their writes ----------

  datatype Call = SetCall(name: string, h: History, revision: Option<nat>) | DeleteCall(name: string)

  /** The bucket when the call stops after its first writes; two is the whole call. */
  function Interrupted(b: Bucket, c: Call, writes: nat): Bucket {
    if writes == 0 then b
    else
      match c
      case SetCall(name, h, revision) =>
        var written := WriteModel(b, name, h, revision);
        if written.None? then b
        else if writes == 1 then written.value
        else WriteNames(written.value, Add(name))
      case DeleteCall(name) =>
        var removed := WriteNames(b, Remove(name));
        if writes == 1 then removed else Purge(removed, name)
  }

  datatype Attempt = Attempt(call: Call, writes: nat)

  function Run(b: Bucket, attempts: seq<Attempt>): Bucket {
    if attempts == [] then b
    else
      var last := attempts[|attempts| - 1];
      Interrupted(Run(b, attempts[..|attempts| - 1]), last.call, last.writes)
  }

  lemma RunSnoc(b: Bucket, attempts: seq<Attempt>, a: Attempt)
    ensures Run(b, attempts + [a]) == Interrupted(Run(b, attempts), a.call, a.writes)
  {
    assert (attempts + [a])[..|attempts|] == attempts;
  }

  ghost predicate Backed(b: Bucket) {
    b.Listed() <= b.models.Keys
  }

  lemma InterruptedKeeps(b: Bucket, c: Call, writes: nat)
    requires b.Fresh()
    ensures Interrupted(b, c, writes).Fresh()
    ensures Backed(b) ==> Backed(Interrupted(b, c, writes))
    ensures b.models.Keys <= b.Listed() && writes >= 2 ==>
              Interrupted(b, c, writes).models.Keys <= Interrupted(b, c, writes).Listed()
  {}

  /** Every listed name has a stored model, wherever the calls stopped; and when none was stopped, every
      stored model is listed. */
  lemma {:induction false} ListedIsStored(attempts: seq<Attempt>)
    ensures Run(Bucket(map[], None, 0), attempts).Fresh() && Backed(Run(Bucket(map[], None, 0), attempts))
    ensures (forall i :: 0 <= i < |attempts| ==> attempts[i].writes >= 2) ==>
              Run(Bucket(map[], None, 0), attempts).models.Keys == Run(Bucket(map[], None, 0), attempts).Listed()
  {
    if attempts != [] {
      var front, last := attempts[..|attempts| - 1], attempts[|attempts| - 1];
      assert forall i :: 0 <= i < |front| ==> front[i] == attempts[i];
      ListedIsStored(front);
      InterruptedKeeps(Run(Bucket(map[], None, 0), front), last.call, last.writes);
    }
  }

  /** A delete that stopped anywhere may simply be called again. */
  lemma DeleteRetried(b: Bucket, name: string, writes: nat)
    ensures Interrupted(Interrupted(b, DeleteCall(name), writes), DeleteCall(name), 2).View() ==
            Interrupted(b, DeleteCall(name), 2).View()
  {
    var once := Interrupted(b, DeleteCall(name), 2);
    var twice := Interrupted(Interrupted(b, DeleteCall(name), writes), DeleteCall(name), 2);
    assert once.Listed() == b.Listed() - {name} == twice.Listed();
    assert once.models == b.models - {name} == twice.models;
  }

  /** Whether a set with this revision writes the model of that name. */
  predicate Accepts(b: Bucket, name: string, revision: Option<nat>) {
    revision.GetOr(0) > 0 ==> name in b.models && b.models[name].revision == revision.value
  }

  /** A set that stopped between its writes, called again. */
  lemma SetRetriedMidway(b: Bucket, name: string, h: History, revision: Option<nat>)
    requires b.Fresh() && Accepts(b, name, revision)
    ensures var c := SetCall(name, h, revision);
            Interrupted(Interrupted(b, c, 1), c, 2).View() ==
            (b.View().0[name := h], if revision.GetOr(0) == 0 then b.Listed() + {name} else b.Listed())
  {
    var c := SetCall(name, h, revision);
    var first := Interrupted(b, c, 1);
    assert first.View().0 == b.View().0[name := h];
    assert first.models[name].revision == b.last + 1;
    if revision.GetOr(0) == 0 {
      SetRepairs(first, name, h, revision);
      assert first.View().0[name := h] == first.View().0;
    }
  }

  /** A set called again with the revision of the first call fails if its first write was made, so it
      completes exactly when nothing was written, nothing remained to be written, or the write is not
      conditional. */
  lemma SetRetriedIff(b: Bucket, name: string, h: History, revision: Option<nat>, writes: nat)
    requires b.Fresh()
    ensures var c := SetCall(name, h, revision);
            Interrupted(Interrupted(b, c, writes), c, 2).View() == Interrupted(b, c, 2).View() <==>
            (writes != 1 || revision.GetOr(0) == 0 || name in b.Listed() || !Accepts(b, name, revision))
  {
    if Accepts(b, name, revision) {
      SetRepairs(b, name, h, revision);
      if writes == 1 {
        SetRetriedMidway(b, name, h, revision);
      } else if writes > 1 {
        SetRetriedAfter(b, name, h, revision);
      }
    }
  }

  lemma SetRetriedAfter(b: Bucket, name: string, h: History, revision: Option<nat>)
    requires b.Fresh() && Accepts(b, name, revision)
    ensures var c := SetCall(name, h, revision);
            Interrupted(Interrupted(b, c, 2), c, 2).View() == Interrupted(b, c, 2).View()
  {
    var once := Interrupted(b, SetCall(name, h, revision), 2);
    SetRepairs(b, name, h, revision);
    if revision.GetOr(0) == 0 {
      SetRepairs(once, name, h, revision);
      assert once.View().0[name := h] == once.View().0;
      assert once.Listed() + {name} == once.Listed();
    } else {
      assert once.models[name].revision == b.last + 1;
    }
  }

  /** That state is reached: after a set and a delete that stopped half way the model is stored and not listed,
      and a set at its revision that stops half way is lost for good to its own retry. */
  lemma SetRetryFails(name: string, h: History) returns (attempts: seq<Attempt>)
    ensures var b := Run(Bucket(map[], None, 0), attempts);
            && name in b.models && name !in b.Listed()
            && var c := SetCall(name, h, Some(b.models[name].revision));
               Interrupted(Interrupted(b, c, 1), c, 2).View() != Interrupted(b, c, 2).View()
  {
    var set_, delete := Attempt(SetCall(name, h, None), 2), Attempt(DeleteCall(name), 1);
    var none := Bucket(map[], None, 0);
    RunSnoc(none, [], set_);
    RunSnoc(none, [] + [set_], delete);
    attempts := [] + [set_] + [delete];
    var b1, b := Run(none, [] + [set_]), Run(none, attempts);
    assert name in b1.models && b1.models[name].revision == 1;
    ListedIsStored(attempts);
    SetRetriedIff(b, name, h, Some(1), 1);
  }

  /** Whatever happened before, a set that completes leaves its name listed and its model stored. */
  lemma SetRepairs(b: Bucket, name: string, h: History, revision: Option<nat>)
    requires WriteModel(b, name, h, revision).Some?
    ensures Interrupted(b, SetCall(name, h, revision), 2).View() == (b.View().0[name := h], b.Listed() + {name})
  {
    var after := Interrupted(b, SetCall(name, h, revision), 2);
    assert after.View().0 == b.View().0[name := h];
    assert after.Listed() == b.Listed() + {name};
  }

  // ---------- the keys of different lattices ----------

  function ModelSetKey(account: Option<string>, lattice: string): string {
    if account.Some? then account.value + "-" + lattice else lattice
  }

  function ModelKey(account: Option<string>, lattice: string, name: string): string {
    if account.Some? then account.value + "-" + lattice + "-" + name else lattice + "-" + name
  }

  lemma ModelKeyExtends(account: Option<string>, lattice: string, name: string)
    ensures ModelKey(account, lattice, name) == ModelSetKey(account, lattice) + "-" + name
  {}

  /** A lattice as the storage sees it: an account, when there are several, and an id. */
  datatype Place = Place(account: Option<string>, lattice: string) {
    function SetKey(): string { ModelSetKey(account, lattice) }
  }

  /** The key of the list of names, or of an application with a name. */
  ghost predicate IsKey(p: Place, key: string) {
    key == p.SetKey() || exists n :: n != "" && key == ModelKey(p.account, p.lattice, n)
  }

  ghost predicate ShareKeys(p: Place, q: Place) {
    exists key :: IsKey(p, key) && IsKey(q, key)
  }

  predicate Extends(long: string, short: string) {
    |long| > |short| && long[..|short|] == short && long[|short|] == '-'
  }

  lemma KeyForm(p: Place, key: string)
    ensures IsKey(p, key) <==> (key == p.SetKey() || (Extends(key, p.SetKey()) && |key| > |p.SetKey()| + 1))
  {
    var k := p.SetKey();
    if n :| n != "" && key == ModelKey(p.account, p.lattice, n) {
      ModelKeyExtends(p.account, p.lattice, n);
      assert key == k + "-" + n;
      assert key[..|k|] == k;
    }
    if Extends(key, k) && |key| > |k| + 1 {
      var n := key[|k| + 1..];
      ModelKeyExtends(p.account, p.lattice, n);
      assert key == k + "-" + n;
    }
  }

  lemma SharedWhenExtended(p: Place, q: Place)
    requires Extends(q.SetKey(), p.SetKey())
    ensures ShareKeys(p, q)
  {
    var key := q.SetKey() + "-x";
    assert key[..|q.SetKey()|] == q.SetKey();
    assert key[..|p.SetKey()|] == q.SetKey()[..|p.SetKey()|];
    KeyForm(p, key);
    KeyForm(q, key);
  }

  /** Two lattices share keys exactly when they have one list of names, or the key of the one's list is that of
      the other followed by a dash and whatever comes after. */
  lemma ShareKeysIff(p: Place, q: Place)
    ensures ShareKeys(p, q) <==>
            (p.SetKey() == q.SetKey() || Extends(p.SetKey(), q.SetKey()) || Extends(q.SetKey(), p.SetKey()))
  {
    var k1, k2 := p.SetKey(), q.SetKey();
    if k1 == k2 {
      assert IsKey(p, k1) && IsKey(q, k1);
    }
    if Extends(k2, k1) { SharedWhenExtended(p, q); }
    if Extends(k1, k2) { SharedWhenExtended(q, p); }
    if key :| IsKey(p, key) && IsKey(q, key) {
      KeyForm(p, key);
      KeyForm(q, key);
      BothPrefixes(key, k1, k2);
    }
  }

  /** As for a lattice and any other whose id goes on with a dash. */
  lemma DashedLatticesShareKeys(account: Option<string>, lattice: string, rest: string)
    ensures ShareKeys(Place(account, lattice), Place(account, lattice + "-" + rest))
  {
    var p, q := Place(account, lattice), Place(account, lattice + "-" + rest);
    assert q.SetKey() == p.SetKey() + "-" + rest;
    assert q.SetKey()[..|p.SetKey()|] == p.SetKey();
    ShareKeysIff(p, q);
  }

  lemma BothPrefixes(key: string, k1: string, k2: string)
    requires (key == k1 || Extends(key, k1)) && (key == k2 || Extends(key, k2))
    ensures k1 == k2 || Extends(k1, k2) || Extends(k2, k1)
  {
    if |k1| < |k2| {
      assert k2[..|k1|] == key[..|k2|][..|k1|] == k1;
      assert k2[|k1|] == key[|k1|];
    } else if |k2| < |k1| {
      assert k1[..|k2|] == key[..|k1|][..|k2|] == k2;
      assert k1[|k2|] == key[|k2|];
    }
  }
}
