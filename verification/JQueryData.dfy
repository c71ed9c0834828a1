/**
 jQuery.data, jQuery.removeData and jQuery.unique: a table from elements and names
 to values, kept as an id on every element and a cache indexed by these ids.
 */
module JQueryData {
  import opened Wrappers

  /** What can carry data; the window hands it to a stand-in. */
  datatype Obj = Window | WindowData | Element(n: nat)

  function Canon(o: Obj): Obj {
    if o == Window then WindowData else o
  }

  /** Two objects share a table exactly when they are the same, or both stand for the window. */
  lemma CanonIdentifies(o: Obj, p: Obj)
    ensures Canon(o) == Canon(p) <==> o == p || (o in {Window, WindowData} && p in {Window, WindowData})
    ensures o.Element? ==> Canon(o) == o
  {
  }

  // a JavaScript value
  type Handle = int

  datatype DataResult =
    | Id(id: nat)
    | Value(value: Option<Handle>)
    | TypeError

  /** Whether an entry is the first one of its object. */
  ghost predicate IsFirst(a: seq<Obj>, i: nat)
    requires i < |a|
  {
    forall j :: 0 <= j < i ==> Canon(a[j]) != Canon(a[i])
  }

  /** The first occurrences, in order. */
  ghost function Firsts(a: seq<Obj>): seq<Obj> {
    if a == [] then []
    else
      var n := |a| - 1;
      if IsFirst(a, n) then Firsts(a[..n]) + [a[n]] else Firsts(a[..n])
  }

  predicate Represented(x: Obj, r: seq<Obj>) {
    exists k :: 0 <= k < |r| && Canon(r[k]) == Canon(x)
  }

  predicate NoRepeats(r: seq<Obj>) {
    forall i, j :: 0 <= i < j < |r| ==> Canon(r[i]) != Canon(r[j])
  }

  lemma {:induction false} RepresentedMore(x: Obj, r: seq<Obj>, y: Obj)
    ensures Represented(x, r) ==> Represented(x, r + [y])
    ensures Canon(x) == Canon(y) ==> Represented(x, r + [y])
  {
    if Represented(x, r) {
      var k :| 0 <= k < |r| && Canon(r[k]) == Canon(x);
      assert Canon((r + [y])[k]) == Canon(x);
    }
    assert (r + [y])[|r|] == y;
  }

  /** `r` has no repeats, comes from `a`, and represents every entry of it. */
  ghost predicate Condenses(a: seq<Obj>, r: seq<Obj>) {
    && NoRepeats(r)
    && (forall i :: 0 <= i < |a| ==> Represented(a[i], r))
    && (forall k :: 0 <= k < |r| ==> r[k] in a)
  }

  lemma {:induction false} FirstsAreDistinctAndComplete(a: seq<Obj>)
    ensures Condenses(a, Firsts(a))
  {
    if a != [] {
      var n := |a| - 1;
      FirstsAreDistinctAndComplete(a[..n]);
      CondensesMore(a[..n], Firsts(a[..n]), a[n]);
      assert a == a[..n] + [a[n]];
      FirstIsUnrepresented(a, Firsts(a[..n]));
    }
  }

  lemma {:induction false} CondensesMore(a: seq<Obj>, r: seq<Obj>, y: Obj)
    requires Condenses(a, r)
    ensures Represented(y, r) ==> Condenses(a + [y], r)
    ensures !Represented(y, r) ==> Condenses(a + [y], r + [y])
  {
    forall i | 0 <= i < |a| ensures Represented((a + [y])[i], r + [y]) && Represented((a + [y])[i], r) {
      assert (a + [y])[i] == a[i];
      RepresentedMore(a[i], r, y);
    }
    RepresentedMore(y, r, y);
  }

  /** An entry is the first of its object exactly when the ones before do not represent it. */
  lemma {:induction false} FirstIsUnrepresented(a: seq<Obj>, r: seq<Obj>)
    requires a != [] && Condenses(a[..|a| - 1], r)
    ensures IsFirst(a, |a| - 1) <==> !Represented(a[|a| - 1], r)
  {
    var n := |a| - 1;
    if !IsFirst(a, n) {
      var j :| 0 <= j < n && Canon(a[j]) == Canon(a[n]);
      assert Represented(a[..n][j], r);
    }
  }

  /** Of a list of elements, the first occurrences are all of them, each one once. */
  lemma {:induction false} FirstsOfElements(a: seq<Obj>)
    requires forall i :: 0 <= i < |a| ==> a[i].Element?
    ensures forall x :: x in Firsts(a) <==> x in a
    ensures forall i, j :: 0 <= i < j < |Firsts(a)| ==> Firsts(a)[i] != Firsts(a)[j]
  {
    FirstsAreDistinctAndComplete(a);
    var r := Firsts(a);
    forall x | x in a ensures x in r {
      var i :| 0 <= i < |a| && a[i] == x;
      assert Represented(a[i], r);
      var k :| 0 <= k < |r| && Canon(r[k]) == Canon(x);
      assert r[k] in a;
      CanonIdentifies(r[k], x);
    }
  }

  /** First occurrences are in the order of the list: what follows only adds behind them. */
  lemma {:induction false} FirstsGrow(a: seq<Obj>, b: seq<Obj>)
    ensures Firsts(a) <= Firsts(a + b)
    decreases |b|
  {
    if b == [] {
      assert a + b == a;
    } else {
      var n := |b| - 1;
      assert (a + b)[..|a + b| - 1] == a + b[..n];
      FirstsGrow(a, b[..n]);
    }
  }

  class JQuery {
    var uuid: nat
    var expando: map<Obj, nat>
    var cache: map<nat, map<string, Handle>>

    // the object of every id in use
    ghost var owner: map<nat, Obj>

    /** Ids are between 1 and uuid and lead back to their object, so no two objects share one. */
    ghost predicate Valid()
      reads this
    {
      && (forall o :: o in expando ==>
            o != Window && 1 <= expando[o] <= uuid && expando[o] in owner && owner[expando[o]] == o)
      && (forall id :: id in owner ==> owner[id] in expando && expando[owner[id]] == id)
      && (forall id :: id in cache ==> id in owner)
    }

    /** The table: the names and values of an object. */
    ghost function Names(o: Obj): map<string, Handle>
      reads this
    {
      if o in expando && expando[o] in cache then cache[expando[o]] else map[]
    }

    constructor ()
      ensures Valid() && uuid == 0 && expando == map[] && cache == map[]
    {
      uuid, expando, cache, owner := 0, map[], map[], map[];
    }

    /** The id of an object, computed when it has none: `id = elem[expando] = ++uuid`. */
    method EnsureId(o: Obj) returns (id: nat)
      requires Valid() && o != Window
      modifies `uuid, `expando, `owner
      ensures o in old(expando) ==> owner == old(owner)
      ensures Valid() && forall p :: Names(p) == old(Names(p))
      ensures o in expando && id == expando[o] && uuid >= old(uuid)
      ensures expando == old(expando)[o := id]
      ensures o in old(expando) ==> id == old(expando)[o] && uuid == old(uuid)
      ensures o !in old(expando) ==> id == uuid == old(uuid) + 1
    {
      if o !in expando {
        uuid := uuid + 1;
        assert uuid !in owner;
        expando := expando[o := uuid];
        owner := owner[uuid := o];
      }
      id := expando[o];
    }

    /** Replaces all names of an object that has an id. */
    method SetNames(o: Obj, id: nat, names: map<string, Handle>)
      requires Valid() && o in expando && expando[o] == id
      modifies `cache
      ensures Valid() && cache == old(cache)[id := names] && Names(o) == names
      ensures forall p :: p != o ==> Names(p) == old(Names(p))
    {
      cache := cache[id := names];
      forall p | p != o ensures Names(p) == old(Names(p)) {
        if p in expando {
          assert owner[expando[p]] == p;
        }
      }
    }

    /** Drops the id and the cache entry of an object. */
    method Forget(o: Obj)
      requires Valid()
      modifies `expando, `cache, `owner
      ensures Valid() && o !in expando && Names(o) == map[]
      ensures expando == old(expando) - {o}
      ensures forall p :: p != o ==> Names(p) == old(Names(p))
    {
      if o in expando {
        var id := expando[o];
        expando := expando - {o};
        cache := cache - {id};
        owner := owner - {id};
        forall p | p != o ensures Names(p) == old(Names(p)) {
          if p in expando {
            assert old(owner)[expando[p]] == p;
          }
        }
      }
    }

    /**
     jQuery.data.  An object that is seen for the first time gets an id that no object ever
     had.  With a name and a value the table changes at that entry only; with a name alone
     it does not change and the entry is returned; without a name the id is returned, and a
     value without a name is an error unless the object has a cache entry already.
     */
    method Data(elem: Obj, name: string, data: Option<Handle>) returns (r: DataResult)
      requires Valid()
      modifies this
      ensures Valid() && uuid >= old(uuid)
      ensures Canon(elem) in expando && expando == old(expando)[Canon(elem) := expando[Canon(elem)]]
      ensures if Canon(elem) in old(expando) then expando == old(expando)
              else expando[Canon(elem)] == uuid == old(uuid) + 1
      ensures forall o :: o != Canon(elem) ==> Names(o) == old(Names(o))
      ensures name != "" ==>
                && Names(Canon(elem)) == (if data.Some? then old(Names(Canon(elem)))[name := data.value]
                                          else old(Names(Canon(elem))))
                && r == Value(if name in Names(Canon(elem)) then Some(Names(Canon(elem))[name]) else None)
      ensures name == "" && data.None? ==>
                Names(Canon(elem)) == old(Names(Canon(elem))) && r == Id(expando[Canon(elem)])
      ensures name == "" && data.Some? ==>
                if Canon(elem) in old(expando) && old(expando)[Canon(elem)] in old(cache)
                then r == Id(expando[Canon(elem)]) && Names(Canon(elem)) == old(Names(Canon(elem)))[name := data.value]
                else r == TypeError && Names(Canon(elem)) == map[]
    {
      var o := Canon(elem);
      var id := EnsureId(o);
      if name != "" && id !in cache {
        SetNames(o, id, map[]);
      }
      if data.Some? {
        if id !in cache {
          return TypeError;
        }
        SetNames(o, id, cache[id][name := data.value]);
      }
      if name == "" {
        return Id(id);
      }
      r := Value(if name in cache[id] then Some(cache[id][name]) else None);
    }

    /**
     jQuery.removeData.  `first` is the name that an enumeration of what is left yields
     first.  Without a name, everything about the object goes, its id too.  With a name only
     that entry goes; but everything goes if nothing is left, and also if the first name that
     is left is the empty one, which the loop takes for "nothing is left".
     */
    method RemoveData(elem: Obj, name: string, first: string)
      requires Valid()
      requires name != "" ==> var left := Names(Canon(elem)) - {name}; left != map[] ==> first in left
      modifies this
      ensures Valid() && uuid == old(uuid)
      ensures forall o :: o != Canon(elem) ==> Names(o) == old(Names(o)) && (o in expando <==> o in old(expando))
      ensures forall o :: o in expando ==> o in old(expando) && expando[o] == old(expando)[o]
      ensures name == "" ==> Names(Canon(elem)) == map[] && Canon(elem) !in expando
      ensures name != "" ==>
                var left := old(Names(Canon(elem))) - {name};
                if left != map[] && first != "" then Names(Canon(elem)) == left && expando == old(expando)
                else Names(Canon(elem)) == map[]
      ensures name != "" && old(Names(Canon(elem))) != map[]
              && (old(Names(Canon(elem))) - {name} == map[] || first == "") ==>
                Canon(elem) !in expando
      decreases if name != "" then 1 else 0
    {
      var o := Canon(elem);
      if name != "" {
        if o in expando && expando[o] in cache {
          var id := expando[o];
          SetNames(o, id, cache[id] - {name});
          if cache[id] == map[] || first == "" {
            RemoveData(o, "", first);
          }
        }
      } else {
        Forget(o);
      }
    }

    /** jQuery.unique: the first occurrence of every object, in order. */
    method Unique(array_: seq<Obj>) returns (ret: seq<Obj>)
      requires Valid()
      modifies this
      ensures Valid()
      ensures ret == Firsts(array_)
      ensures forall o :: Names(o) == old(Names(o))
    {
      ret := [];
      var done: set<nat> := {};
      ghost var seen: set<Obj> := {};
      var i := 0;
      assert array_[..0] == [];
      while i < |array_|
        invariant 0 <= i <= |array_|
        invariant Valid() && ret == Firsts(array_[..i])
        invariant forall o :: Names(o) == old(Names(o))
        invariant SeenBefore(array_, i, seen)
        invariant forall o :: o in seen ==> o in expando && expando[o] in done
        invariant forall d :: d in done ==> d in owner && owner[d] in seen
      {
        var r := Data(array_[i], "", None);
        var id := r.id;
        FirstIfNotSeen(array_, i, seen);
        if id !in done {
          done := done + {id};
          ret := ret + [array_[i]];
        }
        seen := seen + {Canon(array_[i])};
        i := i + 1;
      }
      assert array_[..i] == array_;
    }
  }

  /** `seen` are the objects of the first `i` entries. */
  ghost predicate SeenBefore(a: seq<Obj>, i: nat, seen: set<Obj>)
    requires i <= |a|
  {
    && (forall j :: 0 <= j < i ==> Canon(a[j]) in seen)
    && (forall o :: o in seen ==> exists j :: 0 <= j < i && Canon(a[j]) == o)
  }

  lemma {:induction false} FirstIfNotSeen(a: seq<Obj>, i: nat, seen: set<Obj>)
    requires i < |a| && SeenBefore(a, i, seen)
    ensures Firsts(a[..i + 1]) == if Canon(a[i]) in seen then Firsts(a[..i]) else Firsts(a[..i]) + [a[i]]
    ensures SeenBefore(a, i + 1, seen + {Canon(a[i])})
  {
    var b := a[..i + 1];
    assert b[..i] == a[..i];
    assert IsFirst(b, i) <==> Canon(a[i]) !in seen;
    forall o | o in seen + {Canon(a[i])} ensures exists j :: 0 <= j < i + 1 && Canon(a[j]) == o {
      if o in seen {
        var j :| 0 <= j < i && Canon(a[j]) == o;
      } else {
        assert Canon(a[i]) == o;
      }
    }
  }

  /**
   Removing "a" from an object that has "a", "" and "b", named in this order, takes "b" away too:
   the first name that is left is the empty one.
   */
  method EmptyNameDropsAll(o: Obj, v: Handle) returns (before: DataResult, after: DataResult)
    ensures before == Value(Some(v)) && after == Value(None)
  {
    var jq := new JQuery();
    var r := jq.Data(o, "a", Some(v));
    r := jq.Data(o, "", Some(v));
    r := jq.Data(o, "b", Some(v));
    before := jq.Data(o, "b", None);
    jq.RemoveData(o, "a", "");
    after := jq.Data(o, "b", None);
  }

  /** Storing and reading. */
  method StoreAndRead(jq: JQuery, e: Obj, name: string, v: Handle) returns (read: DataResult)
    requires jq.Valid() && name != ""
    modifies jq
    ensures jq.Valid() && read == Value(Some(v))
  {
    var r := jq.Data(e, name, Some(v));
    read := jq.Data(e, name, None);
  }

  /** What is stored for one element is not seen by another one. */
  method StoreElsewhere(jq: JQuery, e: nat, p: nat, name: string, other: string, v: Option<Handle>)
    returns (before: DataResult, after: DataResult)
    requires jq.Valid() && e != p && other != ""
    modifies jq
    ensures jq.Valid() && before == after
  {
    CanonIdentifies(Element(e), Element(p));
    before := jq.Data(Element(p), other, None);
    var r := jq.Data(Element(e), name, v);
    after := jq.Data(Element(p), other, None);
  }

  /** Nor is what is removed; `first` is the name that the enumeration in removeData yields first. */
  method RemoveElsewhere(jq: JQuery, e: nat, p: nat, name: string, other: string, first: string)
    returns (before: DataResult, after: DataResult)
    requires jq.Valid() && e != p && other != ""
    requires name != "" ==> var left := jq.Names(Element(e)) - {name}; left != map[] ==> first in left
    modifies jq
    ensures jq.Valid() && before == after
  {
    CanonIdentifies(Element(e), Element(p));
    before := jq.Data(Element(p), other, None);
    jq.RemoveData(Element(e), name, first);
    after := jq.Data(Element(p), other, None);
  }

  /** Two elements, one of them twice: both come back, in order. */
  method UniqueOfThree() returns (ret: seq<Obj>)
    ensures ret == [Element(1), Element(2)]
  {
    var jq := new JQuery();
    var a := [Element(1), Element(2), Element(1)];
    ret := jq.Unique(a);
    FirstsOfThree(a);
  }

  /** They have ids of their own. */
  method TwoIds() returns (id1: DataResult, id2: DataResult)
    ensures id1.Id? && id2.Id? && id1 != id2
  {
    var jq := new JQuery();
    id1 := jq.Data(Element(1), "", None);
    id2 := jq.Data(Element(2), "", None);
  }

  lemma {:induction false} FirstsOfThree(a: seq<Obj>)
    requires a == [Element(1), Element(2), Element(1)]
    ensures Firsts(a) == [Element(1), Element(2)]
  {
    assert a[..2] == [Element(1), Element(2)] && a[..2][..1] == [Element(1)] && a[..2][..1][..0] == [];
    assert Canon(a[0]) == Canon(a[2]) && Canon(a[..2][0]) != Canon(a[..2][1]);
    assert IsFirst([Element(1)], 0) && IsFirst(a[..2], 1) && !IsFirst(a, 2);
    assert Firsts([]) == [] && Firsts([Element(1)]) == [Element(1)];
    assert Firsts(a[..2]) == [Element(1)] + [Element(2)];
  }
}
