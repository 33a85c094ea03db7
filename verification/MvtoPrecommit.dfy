/** The precommit of `mvto.hpp`, loop by loop: lock and check the write set in order, undo on the first failure, or
    install one version per entry. The entries of the index are named by number; `chains` and `locked` are their
    contents, updated in place. */
module MvtoPrecommit {
  import opened MvtoChain
  import M = MvtoModel

  type Key = nat
  type ValId = nat

  // An element of the write set; `isNew` when `val` is a private entry that precommit has to insert into the index.
  datatype Write = Write(key: Key, val: ValId, kind: M.Kind, isNew: bool, rec: Rec)

  predicate Inserts(w: Write) {
    w.kind == M.INSERT && w.isNew
  }

  ghost predicate WriteSetOk(ws: seq<Write>, chains: map<ValId, seq<Version>>) {
    && (forall i, j :: 0 <= i < j < |ws| ==> ws[i].key != ws[j].key && ws[i].val != ws[j].val)
    && (forall i :: 0 <= i < |ws| ==>
          ws[i].val in chains && (ws[i].isNew ==> ws[i].kind == M.INSERT) && ws[i].kind != M.READ)
  }

  ghost function Vals(ws: seq<Write>): set<ValId> {
    set i | 0 <= i < |ws| :: ws[i].val
  }

  ghost function NewVals(ws: seq<Write>): set<ValId> {
    set i | 0 <= i < |ws| && Inserts(ws[i]) :: ws[i].val
  }

  ghost function NewKeys(ws: seq<Write>): set<Key> {
    set i | 0 <= i < |ws| && Inserts(ws[i]) :: ws[i].key
  }

  // The chains with those of the taken back entries emptied.
  ghost function Emptied(chains: map<ValId, seq<Version>>, vals: set<ValId>): map<ValId, seq<Version>> {
    map v | v in chains :: if v in vals then [] else chains[v]
  }

  lemma KeysDiffer(ws: seq<Write>, i: nat, n: nat, chains: map<ValId, seq<Version>>)
    requires WriteSetOk(ws, chains) && i <= n < |ws|
    ensures ws[i].key == ws[n].key <==> i == n
    ensures ws[i].val in chains
  {
  }

  // One more element taken back.
  lemma TakenBack(index: map<Key, ValId>, chains: map<ValId, seq<Version>>, done: seq<Write>, w: Write)
    requires w.val in chains && Inserts(w)
    ensures Emptied(chains, NewVals(done))[w.val := []] == Emptied(chains, NewVals(done) + {w.val})
    ensures (index - NewKeys(done)) - {w.key} == index - (NewKeys(done) + {w.key})
  {
  }

  // The chain that a successful precommit leaves at w.
  function AfterCommit(w: Write, chain: seq<Version>, ts: TS, smallest: TS): seq<Version> {
    Pruned(if w.isNew then chain else [Version(ts, ts, w.rec, w.kind == M.DELETE)] + chain, smallest)
  }

  // One round of the locking loop passes.
  predicate Passes(w: Write, index: map<Key, ValId>, chain: seq<Version>, leafTs: map<Key, TS>, ts: TS) {
    && chain != []
    && if Inserts(w) then w.key !in index && (w.key in leafTs ==> leafTs[w.key] <= ts) else M.Admits(chain, w.kind, ts)
  }

  class Precommit {
    var index: map<Key, ValId>
    var locked: set<ValId>
    var chains: map<ValId, seq<Version>>

    constructor (index: map<Key, ValId>, chains: map<ValId, seq<Version>>)
      ensures this.index == index && locked == {} && this.chains == chains
    {
      this.index, locked, this.chains := index, {}, chains;
    }

    // Takes back the inserts of the write set up to endKey.
    method RemoveAlreadyInserted(ws: seq<Write>, endKey: Key, endExclusive: bool, ghost n: nat)
      requires WriteSetOk(ws, chains) && n < |ws| && ws[n].key == endKey
      modifies this`index, this`chains
      ensures var done := if endExclusive then ws[..n] else ws[..n + 1];
              && index == old(index) - NewKeys(done)
              && chains == Emptied(old(chains), NewVals(done))
    {
      var i := 0;
      BackStart(ws, index, chains);
      while true
        invariant i <= n && BackTo(ws, i, old(index), old(chains), index, chains)
        decreases n - i
      {
        var w := ws[i];
        KeysDiffer(ws, i, n, old(chains));
        if endExclusive && w.key == endKey { return; }
        BackStep(ws, i, old(index), old(chains), index, chains);
        if Inserts(w) {
          index := index - {w.key};
          chains := chains[w.val := []];
        }
        if !endExclusive && w.key == endKey { return; }
        i := i + 1;
      }
    }

    // The inserts of the first i elements are taken back, and nothing else is changed.
    ghost predicate BackTo(ws: seq<Write>, i: nat, index0: map<Key, ValId>, chains0: map<ValId, seq<Version>>,
                           index: map<Key, ValId>, chains: map<ValId, seq<Version>>)
    {
      i <= |ws| && index == index0 - NewKeys(ws[..i]) && chains == Emptied(chains0, NewVals(ws[..i]))
    }

    lemma BackStart(ws: seq<Write>, index: map<Key, ValId>, chains: map<ValId, seq<Version>>)
      ensures BackTo(ws, 0, index, chains, index, chains)
    {
    }

    lemma BackStep(ws: seq<Write>, i: nat, index0: map<Key, ValId>, chains0: map<ValId, seq<Version>>,
                   index: map<Key, ValId>, chains: map<ValId, seq<Version>>)
      requires BackTo(ws, i, index0, chains0, index, chains) && i < |ws| && ws[i].val in chains0
      ensures if Inserts(ws[i]) then BackTo(ws, i + 1, index0, chains0, index - {ws[i].key}, chains[ws[i].val := []])
              else BackTo(ws, i + 1, index0, chains0, index, chains)
    {
      Step(ws, i);
      if Inserts(ws[i]) {
        TakenBack(index0, chains0, ws[..i], ws[i]);
      }
    }

    // The sets of the first i + 1 elements, from those of the first i.
    lemma Step(ws: seq<Write>, i: nat)
      requires i < |ws|
      ensures NewKeys(ws[..i + 1]) == NewKeys(ws[..i]) + if Inserts(ws[i]) then {ws[i].key} else {}
      ensures NewVals(ws[..i + 1]) == NewVals(ws[..i]) + if Inserts(ws[i]) then {ws[i].val} else {}
      ensures Vals(ws[..i + 1]) == Vals(ws[..i]) + {ws[i].val}
    {
      var a, b := ws[..i], ws[..i + 1];
      assert b == a + [ws[i]];
      assert b[i] == ws[i];
      forall j | 0 <= j < i ensures a[j] == b[j] { }
    }

    method UnlockWriteset(ws: seq<Write>, endKey: Key, ghost n: nat)
      requires WriteSetOk(ws, chains) && n < |ws| && ws[n].key == endKey
      modifies this`locked
      ensures locked == old(locked) - Vals(ws[..n + 1])
    {
      var i := 0;
      while true
        invariant 0 <= i <= n && locked == old(locked) - Vals(ws[..i])
        decreases n - i
      {
        KeysDiffer(ws, i, n, chains);
        Step(ws, i);
        locked := locked - {ws[i].val};
        if ws[i].key == endKey { return; }
        i := i + 1;
      }
    }

    // A false answer has put everything back: the index as it was, exactly the locks taken released, no version added
    // anywhere, and only private entries that nobody else can reach touched. A true answer, given exactly when every
    // element passes its check, has inserted the new entries, put one version on top of every other entry of the
    // write set, changed no other chain, and released every lock.
    method Run(ws: seq<Write>, leafTs: map<Key, TS>, ts: TS, smallest: TS) returns (ok: bool)
      requires WriteSetOk(ws, chains) && locked !! Vals(ws)
      modifies this
      ensures locked == old(locked) && chains.Keys == old(chains).Keys
      ensures ok <==> forall i :: 0 <= i < |ws| ==> Passes(ws[i], old(index), old(chains)[ws[i].val], leafTs, ts)
      ensures !ok ==> index == old(index)
      ensures !ok ==> forall v :: v in chains && v !in NewVals(ws) ==> chains[v] == old(chains)[v]
      ensures ok ==> index == IndexWith(old(index), ws)
      ensures ok ==> forall i :: 0 <= i < |ws| ==>
                chains[ws[i].val] == AfterCommit(ws[i], old(chains)[ws[i].val], ts, smallest)
      ensures ok ==> forall v :: v in chains && v !in Vals(ws) ==> chains[v] == old(chains)[v]
    {
      ok := LockAll(ws, leafTs, ts);
      if ok {
        InstallAll(ws, ts, smallest);
        ghost var after := AllAfter(ws, old(chains), ts, smallest);
        assert forall i :: 0 <= i < |ws| ==> chains[ws[i].val] == after[i];
        assert ws[..|ws|] == ws;
      }
    }

    method LockAll(ws: seq<Write>, leafTs: map<Key, TS>, ts: TS) returns (ok: bool)
      requires WriteSetOk(ws, chains) && locked !! Vals(ws)
      modifies this
      ensures ok <==> forall i :: 0 <= i < |ws| ==> Passes(ws[i], old(index), old(chains)[ws[i].val], leafTs, ts)
      ensures ok ==> locked == old(locked) + Vals(ws) && chains == old(chains) && index == IndexWith(old(index), ws)
      ensures !ok ==> locked == old(locked) && index == old(index) && chains.Keys == old(chains).Keys
      ensures !ok ==> forall v :: v in chains && v !in NewVals(ws) ==> chains[v] == old(chains)[v]
    {
      var i := 0;
      while i < |ws|
        invariant i <= |ws| && chains == old(chains) && locked == old(locked) + Vals(ws[..i])
        invariant index == IndexWith(old(index), ws[..i]) && NewKeys(ws[..i]) !! old(index).Keys
        invariant forall j :: 0 <= j < i ==> Passes(ws[j], old(index), old(chains)[ws[j].val], leafTs, ts)
      {
        var w := ws[i];
        Step(ws, i);
        KeysBefore(ws, i, chains, old(index));
        IndexWithKeys(old(index), ws[..i]);
        locked := locked + {w.val};
        var chain := chains[w.val];
        if chain == [] {
          Undo(ws, i, true, old(index), old(locked));
          return false;
        }
        if Inserts(w) {
          if w.key in index {
            Undo(ws, i, true, old(index), old(locked));
            return false;
          }
          index := index[w.key := w.val];
          if w.key in leafTs && leafTs[w.key] > ts {
            Undo(ws, i, false, old(index), old(locked));
            return false;
          }
        } else if w.kind == M.INSERT {
          if chain[0].readTs > ts || chain[0].writeTs > ts || !chain[0].deleted {
            Undo(ws, i, true, old(index), old(locked));
            return false;
          }
        } else {
          if chain[0].readTs > ts || chain[0].writeTs > ts || chain[0].deleted {
            Undo(ws, i, true, old(index), old(locked));
            return false;
          }
        }
        i := i + 1;
      }
      assert ws[..i] == ws;
      ok := true;
    }

    // What every failure branch of the locking loop does.
    method Undo(ws: seq<Write>, i: nat, endExclusive: bool, ghost index0: map<Key, ValId>, ghost locked0: set<ValId>)
      requires WriteSetOk(ws, chains) && i < |ws|
      requires index == IndexWith(index0, if endExclusive then ws[..i] else ws[..i + 1])
      requires NewKeys(if endExclusive then ws[..i] else ws[..i + 1]) !! index0.Keys
      requires locked == locked0 + Vals(ws[..i + 1]) && locked0 !! Vals(ws[..i + 1])
      modifies this
      ensures index == index0 && locked == locked0 && chains.Keys == old(chains).Keys
      ensures forall v :: v in chains && v !in NewVals(ws[..i + 1]) ==> chains[v] == old(chains)[v]
    {
      Step(ws, i);
      IndexWithKeys(index0, if endExclusive then ws[..i] else ws[..i + 1]);
      RemoveAlreadyInserted(ws, ws[i].key, endExclusive, i);
      UnlockWriteset(ws, ws[i].key, i);
    }

    method InstallOne(w: Write, ts: TS, smallest: TS)
      requires w.val in chains
      modifies this`chains, this`locked
      ensures chains == old(chains)[w.val := AfterCommit(w, old(chains)[w.val], ts, smallest)]
      ensures locked == old(locked) - {w.val}
    {
      var chain := chains[w.val];
      if !w.isNew {
        chain := [Version(ts, ts, w.rec, w.kind == M.DELETE)] + chain;
      }
      chains := chains[w.val := Pruned(chain, smallest)];
      locked := locked - {w.val};
    }

    method InstallAll(ws: seq<Write>, ts: TS, smallest: TS)
      requires WriteSetOk(ws, chains) && Vals(ws) <= locked
      modifies this`chains, this`locked
      ensures locked == old(locked) - Vals(ws)
      ensures Installed(ws, |ws|, old(chains), chains, AllAfter(ws, old(chains), ts, smallest))
    {
      ghost var after := AllAfter(ws, chains, ts, smallest);
      var i := 0;
      while i < |ws|
        invariant i <= |ws| && locked == old(locked) - Vals(ws[..i])
        invariant Installed(ws, i, old(chains), chains, after)
      {
        var w := ws[i];
        Step(ws, i);
        KeysBefore(ws, i, old(chains), map[]);
        InstalledStep(ws, i, old(chains), chains, after);
        assert after[i] == AfterCommit(w, chains[w.val], ts, smallest);
        InstallOne(w, ts, smallest);
        i := i + 1;
      }
      assert ws[..i] == ws;
    }
  }

  // The chains that a successful precommit leaves, element by element.
  ghost function AllAfter(ws: seq<Write>, chains: map<ValId, seq<Version>>, ts: TS,
                          smallest: TS): (r: seq<seq<Version>>)
    requires WriteSetOk(ws, chains)
    ensures |r| == |ws|
  {
    seq(|ws|, i requires 0 <= i < |ws| => AfterCommit(ws[i], chains[ws[i].val], ts, smallest))
  }

  // The apply loop has done its first i elements, and nothing else.
  ghost predicate Installed(ws: seq<Write>, i: nat, chains0: map<ValId, seq<Version>>, chains: map<ValId, seq<Version>>,
                            after: seq<seq<Version>>)
    requires WriteSetOk(ws, chains0) && i <= |ws| == |after|
  {
    && chains.Keys == chains0.Keys
    && (forall j :: 0 <= j < i ==> chains[ws[j].val] == after[j])
    && (forall v :: v in chains && v !in Vals(ws[..i]) ==> chains[v] == chains0[v])
  }

  lemma InstalledStep(ws: seq<Write>, i: nat, chains0: map<ValId, seq<Version>>, chains: map<ValId, seq<Version>>,
                      after: seq<seq<Version>>)
    requires WriteSetOk(ws, chains0) && i < |ws| == |after| && Installed(ws, i, chains0, chains, after)
    ensures Installed(ws, i + 1, chains0, chains[ws[i].val := after[i]], after)
  {
    var chains' := chains[ws[i].val := after[i]];
    forall j | 0 <= j < i + 1 ensures chains'[ws[j].val] == after[j] {
      assert j < i ==> ws[j].val != ws[i].val;
    }
    forall v | v in chains' && v !in Vals(ws[..i + 1]) ensures chains'[v] == chains0[v] {
      NotAmong(ws, i, v);
    }
  }

  lemma NotAmong(ws: seq<Write>, i: nat, v: ValId)
    requires i < |ws| && v !in Vals(ws[..i + 1])
    ensures v !in Vals(ws[..i]) && v != ws[i].val
  {
    assert ws[..i + 1][i] == ws[i];
    forall j | 0 <= j < i ensures ws[..i][j] == ws[..i + 1][j] { }
  }

  // The first i elements, one by one: their keys and entries are not those of element i.
  lemma KeysBefore(ws: seq<Write>, i: nat, chains: map<ValId, seq<Version>>, index: map<Key, ValId>)
    requires WriteSetOk(ws, chains) && i < |ws|
    ensures ws[i].key !in NewKeys(ws[..i]) && ws[i].val !in Vals(ws[..i]) && ws[i].val in Vals(ws)
    ensures NewVals(ws[..i + 1]) <= NewVals(ws) && Vals(ws[..i]) <= Vals(ws) && Vals(ws[..i + 1]) <= Vals(ws)
    ensures IndexWith(index, ws[..i + 1]) ==
            if Inserts(ws[i]) then IndexWith(index, ws[..i])[ws[i].key := ws[i].val] else IndexWith(index, ws[..i])
  {
    assert ws[..i + 1][..i] == ws[..i];
    forall j | 0 <= j < i ensures ws[..i][j] == ws[j] && ws[..i + 1][j] == ws[j] { }
  }

  // The index with the new entries of the write set.
  function IndexWith(index: map<Key, ValId>, ws: seq<Write>): map<Key, ValId> {
    if ws == [] then index
    else
      var before, w := IndexWith(index, ws[..|ws| - 1]), ws[|ws| - 1];
      if Inserts(w) then before[w.key := w.val] else before
  }

  lemma {:induction false} IndexWithKeys(index: map<Key, ValId>, ws: seq<Write>)
    ensures IndexWith(index, ws).Keys == index.Keys + NewKeys(ws)
    ensures forall k :: k in index && k !in NewKeys(ws) ==> IndexWith(index, ws)[k] == index[k]
  {
    if ws != [] {
      var front, w := ws[..|ws| - 1], ws[|ws| - 1];
      IndexWithKeys(index, front);
      assert NewKeys(ws) == NewKeys(front) + if Inserts(w) then {w.key} else {} by {
        assert ws == front + [w];
        forall j | 0 <= j < |front| ensures front[j] == ws[j] { }
      }
    }
  }
}
