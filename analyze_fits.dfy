/**
 * The FITS summary of scripts/analyze_fits.py: per HDU, its index and class,
 * a filtered map of at most 80 primitive header values, the NAXIS entries,
 * and the data's type, shape and statistics.
 */
module AnalyzeFits {
  import opened Wrappers
  import opened Decimal
  import opened FitsHeader

  /** `_safe`: the value is a `str`, `int`, `float`, `bool` or `None`. */
  predicate Safe(v: Value)
  {
    !v.Other?
  }

  predicate Commentary(k: string)
  {
    k == "COMMENT" || k == "HISTORY"
  }

  /** At most this many header values are kept. */
  const MaxTaken: nat := 80

  function EntryKeys(m: seq<Entry>): (ks: seq<string>)
    ensures |ks| == |m| && forall i :: 0 <= i < |m| ==> ks[i] == m[i].0
  {
    seq(|m|, i requires 0 <= i < |m| => m[i].0)
  }

  /**
   * The assignments `head_map[k] = v` the header loop performs, in order, when
   * it visits the keywords `ks` with `room` values still to take: commentary
   * keywords are skipped, the loop stops when no room is left, and a value that
   * raises or is not primitive is skipped without using room.
   */
  function Taken(h: Header, ks: seq<string>, room: nat): seq<Entry>
    decreases |ks|
  {
    if ks == [] then []
    else if Commentary(ks[0]) then Taken(h, ks[1..], room)
    else if room == 0 then []
    else match Fetch(h, ks[0])
      case Found(v) =>
        if Safe(v) then [(ks[0], v)] + Taken(h, ks[1..], room - 1) else Taken(h, ks[1..], room)
      case Raises(_) => Taken(h, ks[1..], room)
  }

  /** A dict as its items in insertion order: assigning an existing key replaces its value in place. */
  function Assign(m: seq<Entry>, e: Entry): (r: seq<Entry>)
    ensures e.0 in EntryKeys(m) ==> EntryKeys(r) == EntryKeys(m)
    ensures e.0 !in EntryKeys(m) ==> r == m + [e]
    decreases |m|
  {
    if m == [] then [e]
    else
      var tail := m[1..];
      EntryKeysCons(m[0], tail);
      assert m == [m[0]] + tail;
      if m[0].0 == e.0 then
        EntryKeysCons(e, tail);
        [e] + tail
      else
        var rest := Assign(tail, e);
        EntryKeysCons(m[0], rest);
        assert e.0 !in EntryKeys(m) ==> [m[0]] + rest == m + [e];
        [m[0]] + rest
  }

  lemma EntryKeysCons(x: Entry, m: seq<Entry>)
    ensures EntryKeys([x] + m) == [x.0] + EntryKeys(m)
  {
    var a, b := EntryKeys([x] + m), [x.0] + EntryKeys(m);
    assert |a| == |b|;
    forall i | 0 <= i < |a| ensures a[i] == b[i] {
      if i > 0 {
        assert ([x] + m)[i] == m[i - 1];
      }
    }
  }

  /** The dict after a run of assignments. */
  function StoreAll(m: seq<Entry>, es: seq<Entry>): seq<Entry>
    decreases |es|
  {
    if es == [] then m else StoreAll(Assign(m, es[0]), es[1..])
  }

  /** `head_map` for a header. */
  function HeadMap(h: Header): seq<Entry>
  {
    StoreAll([], Taken(h, KeysOf(h), MaxTaken))
  }

  predicate DistinctKeys(m: seq<Entry>)
  {
    forall i, j :: 0 <= i < j < |m| ==> m[i].0 != m[j].0
  }

  /** Every entry has a non-commentary key and a primitive value. */
  predicate Clean(m: seq<Entry>)
  {
    forall i :: 0 <= i < |m| ==> !Commentary(m[i].0) && Safe(m[i].1)
  }

  /** `a` occurs in `b` in order, possibly with gaps. */
  predicate IsSubseq(a: seq<string>, b: seq<string>)
    decreases |b|
  {
    a == [] || (b != [] && ((a[0] == b[0] && IsSubseq(a[1..], b[1..])) || IsSubseq(a, b[1..])))
  }

  // ---------------------------------------------------------------------------
  // The header loop

  /**
   * The loop over `hdr.keys()` with its `taken` counter, `continue` and `break`;
   * it builds `head_map` dict-style.
   */
  method CollectHeader(h: Header) returns (headMap: seq<Entry>)
    ensures headMap == HeadMap(h)
    ensures |headMap| <= MaxTaken && Clean(headMap) && DistinctKeys(headMap)
    ensures IsSubseq(EntryKeys(headMap), KeysOf(h))
  {
    var ks := KeysOf(h);
    ghost var goal := HeadMap(h);
    headMap := [];
    var taken: nat := 0;
    ghost var room: nat := MaxTaken;
    var idx := 0;
    while idx < |ks|
      invariant 0 <= idx <= |ks| && taken <= MaxTaken && room == MaxTaken - taken
      invariant StoreAll(headMap, Taken(h, ks[idx..], room)) == goal
    {
      var k := ks[idx];
      if Commentary(k) {
        SkipKey(h, headMap, ks, idx, room, goal);
        idx := idx + 1;
        continue;
      }
      if taken >= MaxTaken {
        NoRoomLeft(h, headMap, ks, idx, goal);
        break;
      }
      var lookup := Fetch(h, k);
      if lookup.Found? && Safe(lookup.v) {
        TakeKey(h, headMap, ks, idx, room, goal);
        headMap := Assign(headMap, (k, lookup.v));
        taken, room := taken + 1, room - 1;
      } else {
        SkipKey(h, headMap, ks, idx, room, goal);
      }
      idx := idx + 1;
    }
    if idx == |ks| {
      assert Taken(h, ks[idx..], room) == [];
    }
    HeadMapProperties(h);
  }

  // ---------------------------------------------------------------------------
  // Properties of the header filter

  /** The loop takes at most `room` values; each has a non-commentary key and a primitive value. */
  lemma {:induction false} TakenBounded(h: Header, ks: seq<string>, room: nat)
    ensures |Taken(h, ks, room)| <= room
    ensures Clean(Taken(h, ks, room))
    decreases |ks|
  {
    if ks != [] {
      TakenBounded(h, ks[1..], room);
      if room > 0 {
        TakenBounded(h, ks[1..], room - 1);
      }
    }
  }

  /** The keys of the assignments come from the visited keywords, in order. */
  lemma {:induction false} TakenInOrder(h: Header, ks: seq<string>, room: nat)
    ensures IsSubseq(EntryKeys(Taken(h, ks, room)), ks)
    decreases |ks|
  {
    if ks != [] {
      var t := Taken(h, ks, room);
      TakenInOrder(h, ks[1..], room);
      if room > 0 {
        TakenInOrder(h, ks[1..], room - 1);
      }
      if t != [] && !Commentary(ks[0]) && room > 0 && Fetch(h, ks[0]).Found? && Safe(Fetch(h, ks[0]).v) {
        assert EntryKeys(t)[0] == ks[0];
        assert EntryKeys(t)[1..] == EntryKeys(Taken(h, ks[1..], room - 1));
      }
    }
  }

  /** The loop passes over keyword `ks[idx]`: it is commentary, or its value raises or is not primitive. */
  lemma SkipKey(h: Header, m: seq<Entry>, ks: seq<string>, idx: nat, room: nat, goal: seq<Entry>)
    requires idx < |ks| && StoreAll(m, Taken(h, ks[idx..], room)) == goal
    requires Commentary(ks[idx]) || (room > 0 && (Fetch(h, ks[idx]).Raises? || !Safe(Fetch(h, ks[idx]).v)))
    ensures StoreAll(m, Taken(h, ks[idx + 1..], room)) == goal
  {
    assert ks[idx..] == [ks[idx]] + ks[idx + 1..];
    TakenCons(h, ks[idx], ks[idx + 1..], room);
  }

  /** The loop stops at a non-commentary keyword once no room is left: the dict is complete. */
  lemma NoRoomLeft(h: Header, m: seq<Entry>, ks: seq<string>, idx: nat, goal: seq<Entry>)
    requires idx < |ks| && StoreAll(m, Taken(h, ks[idx..], 0)) == goal && !Commentary(ks[idx])
    ensures m == goal
  {
    assert ks[idx..] == [ks[idx]] + ks[idx + 1..];
    TakenCons(h, ks[idx], ks[idx + 1..], 0);
  }

  /** The loop assigns keyword `ks[idx]`'s primitive value, using one unit of room. */
  lemma TakeKey(h: Header, m: seq<Entry>, ks: seq<string>, idx: nat, room: nat, goal: seq<Entry>)
    requires idx < |ks| && StoreAll(m, Taken(h, ks[idx..], room)) == goal
    requires !Commentary(ks[idx]) && room > 0 && Fetch(h, ks[idx]).Found? && Safe(Fetch(h, ks[idx]).v)
    ensures StoreAll(Assign(m, (ks[idx], Fetch(h, ks[idx]).v)), Taken(h, ks[idx + 1..], room - 1)) == goal
  {
    var s := ks[idx..];
    assert s[0] == ks[idx] && s[1..] == ks[idx + 1..];
    var e, tail := (ks[idx], Fetch(h, ks[idx]).v), Taken(h, ks[idx + 1..], room - 1);
    assert Taken(h, s, room) == [e] + tail;
    StoreAllCons(m, e, tail);
  }

  /** One keyword visited by the loop. */
  lemma TakenCons(h: Header, k: string, rest: seq<string>, room: nat)
    ensures Commentary(k) ==> Taken(h, [k] + rest, room) == Taken(h, rest, room)
    ensures !Commentary(k) && room == 0 ==> Taken(h, [k] + rest, room) == []
    ensures !Commentary(k) && room > 0 && Fetch(h, k).Found? && Safe(Fetch(h, k).v) ==>
      Taken(h, [k] + rest, room) == [(k, Fetch(h, k).v)] + Taken(h, rest, room - 1)
    ensures !Commentary(k) && room > 0 && (Fetch(h, k).Raises? || !Safe(Fetch(h, k).v)) ==>
      Taken(h, [k] + rest, room) == Taken(h, rest, room)
  {
    assert ([k] + rest)[0] == k && ([k] + rest)[1..] == rest;
  }

  /** One assignment of a run. */
  lemma StoreAllCons(m: seq<Entry>, e: Entry, es: seq<Entry>)
    ensures StoreAll(m, [e] + es) == StoreAll(Assign(m, e), es)
  {
    assert ([e] + es)[0] == e && ([e] + es)[1..] == es;
  }

  /**
   * A keyword whose lookup raises or yields a non-primitive value contributes
   * nothing, wherever it stands: it neither uses room nor changes the result.
   */
  lemma SkippedKey(h: Header, before: seq<string>, k: string, after: seq<string>, room: nat)
    requires Fetch(h, k).Raises? || !Safe(Fetch(h, k).v)
    ensures Taken(h, before + [k] + after, room) == Taken(h, before + after, room)
  {
    TakenAppend(h, before, [k] + after, room);
    TakenAppend(h, before, after, room);
    assert before + [k] + after == before + ([k] + after);
    var rest := room - |Taken(h, before, room)|;
    assert ([k] + after)[1..] == after;
    if rest == 0 {
      TakenNoRoom(h, after);
    }
  }

  /** With no room left nothing more is taken. */
  lemma {:induction false} TakenNoRoom(h: Header, ks: seq<string>)
    ensures Taken(h, ks, 0) == []
    decreases |ks|
  {
    if ks != [] {
      TakenNoRoom(h, ks[1..]);
    }
  }

  /** Visiting `a` then `b` takes what `a` takes, then what `b` takes with the room that is left. */
  lemma {:induction false} TakenAppend(h: Header, a: seq<string>, b: seq<string>, room: nat)
    ensures |Taken(h, a, room)| <= room
    ensures Taken(h, a + b, room) == Taken(h, a, room) + Taken(h, b, room - |Taken(h, a, room)|)
    decreases |a|
  {
    TakenBounded(h, a, room);
    if a == [] {
      assert a + b == b;
    } else {
      var k, a' := a[0], a[1..];
      assert (a + b)[0] == k && (a + b)[1..] == a' + b;
      var ta, tab := Taken(h, a, room), Taken(h, a + b, room);
      if Commentary(k) || (room > 0 && (Fetch(h, k).Raises? || !Safe(Fetch(h, k).v))) {
        TakenAppend(h, a', b, room);
        assert ta == Taken(h, a', room) && tab == Taken(h, a' + b, room);
      } else if room == 0 {
        TakenNoRoom(h, b);
        assert ta == [] && tab == [];
      } else {
        TakenAppend(h, a', b, room - 1);
        var e, x := (k, Fetch(h, k).v), Taken(h, a', room - 1);
        var y := Taken(h, b, room - 1 - |x|);
        assert ta == [e] + x && tab == [e] + (x + y);
        assert room - |ta| == room - 1 - |x|;
        assert [e] + (x + y) == ([e] + x) + y;
      }
    }
  }

  // Properties of the dict

  /** Assignments keep a dict's keys distinct and clean, and add at most one item each. */
  lemma {:induction false} StoreAllShape(m: seq<Entry>, es: seq<Entry>)
    requires DistinctKeys(m) && Clean(m) && Clean(es)
    ensures DistinctKeys(StoreAll(m, es)) && Clean(StoreAll(m, es))
    ensures |StoreAll(m, es)| <= |m| + |es|
    decreases |es|
  {
    if es != [] {
      var m' := Assign(m, es[0]);
      AssignShape(m, es[0]);
      assert Clean(es[1..]) by {
        forall i | 0 <= i < |es[1..]| ensures !Commentary(es[1..][i].0) && Safe(es[1..][i].1) {
          assert es[1..][i] == es[i + 1];
        }
      }
      StoreAllShape(m', es[1..]);
    }
  }

  lemma {:induction false} AssignShape(m: seq<Entry>, e: Entry)
    requires DistinctKeys(m) && Clean(m) && !Commentary(e.0) && Safe(e.1)
    ensures DistinctKeys(Assign(m, e)) && Clean(Assign(m, e))
    ensures |Assign(m, e)| <= |m| + 1
    ensures e in Assign(m, e)
    decreases |m|
  {
    if m != [] {
      var tail := m[1..];
      assert m == [m[0]] + tail;
      CleanTail(m);
      if m[0].0 == e.0 {
        DistinctSameKeys(m, Assign(m, e));
        CleanPrepend(e, tail);
      } else {
        DistinctTail(m);
        AssignShape(tail, e);
        var r := Assign(tail, e);
        AssignKeys(tail, e);
        HeadNotInTail(m);
        DistinctCons(m[0], r);
        CleanPrepend(m[0], r);
        assert Assign(m, e) == [m[0]] + r;
      }
    }
  }

  /** Every key after an assignment was there before or is the assigned one. */
  lemma AssignKeys(m: seq<Entry>, e: Entry)
    ensures forall j :: 0 <= j < |Assign(m, e)| ==> Assign(m, e)[j].0 == e.0 || Assign(m, e)[j].0 in EntryKeys(m)
  {
    var r := Assign(m, e);
    forall j | 0 <= j < |r| ensures r[j].0 == e.0 || r[j].0 in EntryKeys(m) {
      if e.0 in EntryKeys(m) {
        assert r[j].0 == EntryKeys(r)[j] == EntryKeys(m)[j];
      } else if j < |m| {
        assert r[j] == m[j] && EntryKeys(m)[j] == m[j].0;
      }
    }
  }

  lemma HeadNotInTail(m: seq<Entry>)
    requires m != [] && DistinctKeys(m)
    ensures m[0].0 !in EntryKeys(m[1..])
  {
    var ks := EntryKeys(m[1..]);
    forall i | 0 <= i < |ks| ensures ks[i] != m[0].0 {
      assert ks[i] == m[i + 1].0;
    }
  }

  lemma CleanPrepend(x: Entry, r: seq<Entry>)
    requires !Commentary(x.0) && Safe(x.1) && Clean(r)
    ensures Clean([x] + r)
  {
    forall i | 0 <= i < |[x] + r| ensures !Commentary(([x] + r)[i].0) && Safe(([x] + r)[i].1) {
      if i > 0 {
        assert ([x] + r)[i] == r[i - 1];
      }
    }
  }

  lemma DistinctTail(m: seq<Entry>)
    requires m != [] && DistinctKeys(m)
    ensures DistinctKeys(m[1..])
  {
    forall i, j | 0 <= i < j < |m[1..]| ensures m[1..][i].0 != m[1..][j].0 {
      assert m[1..][i] == m[i + 1] && m[1..][j] == m[j + 1];
    }
  }

  lemma CleanTail(m: seq<Entry>)
    requires m != [] && Clean(m)
    ensures Clean(m[1..])
  {
    assert forall i :: 0 <= i < |m[1..]| ==> m[1..][i] == m[i + 1];
  }

  lemma DistinctCons(x: Entry, r: seq<Entry>)
    requires DistinctKeys(r) && forall j :: 0 <= j < |r| ==> r[j].0 != x.0
    ensures DistinctKeys([x] + r)
  {
    var s := [x] + r;
    forall i, j | 0 <= i < j < |s| ensures s[i].0 != s[j].0 {
      assert s[j] == r[j - 1];
      if i > 0 {
        assert s[i] == r[i - 1];
      }
    }
  }

  lemma DistinctSameKeys(m: seq<Entry>, r: seq<Entry>)
    requires DistinctKeys(m) && EntryKeys(r) == EntryKeys(m)
    ensures DistinctKeys(r)
  {
    forall i, j | 0 <= i < j < |r| ensures r[i].0 != r[j].0 {
      assert r[i].0 == EntryKeys(m)[i] && r[j].0 == EntryKeys(m)[j];
    }
  }

  lemma {:induction false} SubseqSnoc(a: seq<string>, b: seq<string>, x: string)
    requires IsSubseq(a, b)
    ensures IsSubseq(a + [x], b + [x])
    decreases |b|
  {
    if a == [] {
      assert a + [x] == [x];
      SubseqOfSingleton(b, x);
    } else {
      assert (a + [x])[0] == a[0] && (a + [x])[1..] == a[1..] + [x];
      assert (b + [x])[0] == b[0] && (b + [x])[1..] == b[1..] + [x];
      if a[0] == b[0] && IsSubseq(a[1..], b[1..]) {
        SubseqSnoc(a[1..], b[1..], x);
      } else {
        SubseqSnoc(a, b[1..], x);
      }
    }
  }

  lemma {:induction false} SubseqOfSingleton(b: seq<string>, x: string)
    ensures IsSubseq([x], b + [x])
    decreases |b|
  {
    assert [x][1..] == [];
    if b != [] {
      assert (b + [x])[1..] == b[1..] + [x];
      SubseqOfSingleton(b[1..], x);
    }
  }

  lemma {:induction false} SubseqExtend(a: seq<string>, b: seq<string>, x: string)
    requires IsSubseq(a, b)
    ensures IsSubseq(a, b + [x])
    decreases |b|
  {
    if a != [] {
      assert (b + [x])[0] == b[0] && (b + [x])[1..] == b[1..] + [x];
      if a[0] == b[0] && IsSubseq(a[1..], b[1..]) {
        SubseqExtend(a[1..], b[1..], x);
      } else {
        SubseqExtend(a, b[1..], x);
      }
    }
  }

  lemma {:induction false} SubseqTrans(a: seq<string>, b: seq<string>, c: seq<string>)
    requires IsSubseq(a, b) && IsSubseq(b, c)
    ensures IsSubseq(a, c)
    decreases |c|
  {
    if a != [] {
      if IsSubseq(b, c[1..]) {
        SubseqTrans(a, b, c[1..]);
      } else if a[0] == b[0] && IsSubseq(a[1..], b[1..]) {
        SubseqTrans(a[1..], b[1..], c[1..]);
      } else {
        SubseqTrans(a, b[1..], c[1..]);
      }
    }
  }

  /** A dict keeps its keys in the order they were first assigned. */
  lemma {:induction false} StoreAllInOrder(m: seq<Entry>, es: seq<Entry>, before: seq<string>)
    requires IsSubseq(EntryKeys(m), before)
    ensures IsSubseq(EntryKeys(StoreAll(m, es)), before + EntryKeys(es))
    decreases |es|
  {
    if es == [] {
      assert before + EntryKeys(es) == before;
    } else {
      AssignInOrder(m, es[0], before);
      StoreAllInOrder(Assign(m, es[0]), es[1..], before + [es[0].0]);
      KeysCons(es, before);
    }
  }

  lemma KeysCons(es: seq<Entry>, before: seq<string>)
    requires es != []
    ensures before + [es[0].0] + EntryKeys(es[1..]) == before + EntryKeys(es)
  {
    assert EntryKeys(es) == [es[0].0] + EntryKeys(es[1..]);
  }

  lemma AssignInOrder(m: seq<Entry>, e: Entry, before: seq<string>)
    requires IsSubseq(EntryKeys(m), before)
    ensures IsSubseq(EntryKeys(Assign(m, e)), before + [e.0])
  {
    if e.0 in EntryKeys(m) {
      SubseqExtend(EntryKeys(m), before, e.0);
    } else {
      assert EntryKeys(Assign(m, e)) == EntryKeys(m) + [e.0];
      SubseqSnoc(EntryKeys(m), before, e.0);
    }
  }

  /**
   * `head_map` holds at most 80 items, none keyed `COMMENT` or `HISTORY`, all
   * primitive, no key twice; its keys stand in header order, each where it was first
   * assigned.
   */
  lemma HeadMapProperties(h: Header)
    ensures |HeadMap(h)| <= MaxTaken && Clean(HeadMap(h)) && DistinctKeys(HeadMap(h))
    ensures IsSubseq(EntryKeys(HeadMap(h)), KeysOf(h))
    ensures EntryKeys(HeadMap(h)) == FirstOccurrences(EntryKeys(Taken(h, KeysOf(h), MaxTaken)))
  {
    var ks := KeysOf(h);
    var t := Taken(h, ks, MaxTaken);
    var m := StoreAll([], t);
    assert m == HeadMap(h);
    TakenBounded(h, ks, MaxTaken);
    StoreAllShape([], t);
    StoreInOrder(t);
    TakenInOrder(h, ks, MaxTaken);
    SubseqTrans(EntryKeys(m), EntryKeys(t), ks);
    StoreKeysFirstOccurrences(t);
  }

  /** Every item of `head_map` holds `hdr[k]` of its key `k`. */
  lemma HeadMapValues(h: Header)
    ensures forall i :: 0 <= i < |HeadMap(h)| ==> Fetch(h, HeadMap(h)[i].0) == Found(HeadMap(h)[i].1)
  {
    var t := Taken(h, KeysOf(h), MaxTaken);
    TakenFetched(h, KeysOf(h), MaxTaken);
    StoreAllFetched(h, [], t);
    assert StoreAll([], t) == HeadMap(h);
  }

  /**
   * The pairs `(k, hdr[k])` of `ks`, in order, that the filter accepts when
   * room is unlimited: keywords other than `COMMENT` and `HISTORY` whose
   * lookup succeeds with a primitive value.
   */
  function Kept(h: Header, ks: seq<string>): seq<Entry>
    decreases |ks|
  {
    if ks == [] then []
    else
      var f := Fetch(h, ks[0]);
      var here := if !Commentary(ks[0]) && f.Found? && Safe(f.v) then [(ks[0], f.v)] else [];
      here + Kept(h, ks[1..])
  }

  /**
   * The loop takes exactly the first `room` accepted pairs, or all of them
   * when there are fewer: it stops early only for want of room.
   */
  lemma {:induction false} TakenIsKeptPrefix(h: Header, ks: seq<string>, room: nat)
    ensures |Taken(h, ks, room)| == if room < |Kept(h, ks)| then room else |Kept(h, ks)|
    ensures Taken(h, ks, room) == Kept(h, ks)[..|Taken(h, ks, room)|]
    decreases |ks|
  {
    if ks != [] {
      var k, rest := ks[0], ks[1..];
      var f := Fetch(h, k);
      var kr := Kept(h, rest);
      if Commentary(k) || !f.Found? || !Safe(f.v) {
        assert Kept(h, ks) == [] + kr == kr;
        TakenIsKeptPrefix(h, rest, room);
      } else if room > 0 {
        var e := (k, f.v);
        assert Kept(h, ks) == [e] + kr;
        TakenIsKeptPrefix(h, rest, room - 1);
        var tr := Taken(h, rest, room - 1);
        assert Taken(h, ks, room) == [e] + tr;
        assert ([e] + kr)[..1 + |tr|] == [e] + kr[..|tr|];
      }
    }
  }

  /** Assigning keeps every key already present and adds the assigned one. */
  lemma AssignHasKeys(m: seq<Entry>, e: Entry)
    ensures e.0 in EntryKeys(Assign(m, e))
    ensures forall k :: k in EntryKeys(m) ==> k in EntryKeys(Assign(m, e))
  {
    if e.0 !in EntryKeys(m) {
      var ks := EntryKeys(Assign(m, e));
      assert ks[|m|] == e.0;
      forall k | k in EntryKeys(m) ensures k in ks {
        var i :| 0 <= i < |m| && EntryKeys(m)[i] == k;
        assert ks[i] == k;
      }
    }
  }

  /** After a run of assignments every key of the run, and of the dict before it, is present. */
  lemma {:induction false} StoreAllHasKeys(m: seq<Entry>, es: seq<Entry>)
    ensures forall k :: k in EntryKeys(m) ==> k in EntryKeys(StoreAll(m, es))
    ensures forall i :: 0 <= i < |es| ==> es[i].0 in EntryKeys(StoreAll(m, es))
    decreases |es|
  {
    if es != [] {
      var m1 := Assign(m, es[0]);
      AssignHasKeys(m, es[0]);
      StoreAllHasKeys(m1, es[1..]);
      HasKeysStep(m, m1, StoreAll(m1, es[1..]), es);
    }
  }

  lemma HasKeysStep(m: seq<Entry>, m1: seq<Entry>, r: seq<Entry>, es: seq<Entry>)
    requires es != [] && es[0].0 in EntryKeys(m1)
    requires forall k :: k in EntryKeys(m) ==> k in EntryKeys(m1)
    requires forall k :: k in EntryKeys(m1) ==> k in EntryKeys(r)
    requires forall i :: 0 <= i < |es[1..]| ==> es[1..][i].0 in EntryKeys(r)
    ensures forall k :: k in EntryKeys(m) ==> k in EntryKeys(r)
    ensures forall i :: 0 <= i < |es| ==> es[i].0 in EntryKeys(r)
  {
    forall i | 0 < i < |es| ensures es[i].0 in EntryKeys(r) {
      assert es[i] == es[1..][i - 1];
    }
  }

  /** Every item after an assignment was already there or is the assigned one. */
  lemma {:induction false} AssignFrom(m: seq<Entry>, e: Entry)
    ensures forall x :: x in Assign(m, e) ==> x in m || x == e
    decreases |m|
  {
    if m != [] {
      var tail := m[1..];
      assert m == [m[0]] + tail;
      if m[0].0 != e.0 {
        AssignFrom(tail, e);
        assert Assign(m, e) == [m[0]] + Assign(tail, e);
      }
    }
  }

  /** Every item after a run of assignments was in the dict before or in the run. */
  lemma {:induction false} StoreAllFrom(m: seq<Entry>, es: seq<Entry>)
    ensures forall x :: x in StoreAll(m, es) ==> x in m || x in es
    decreases |es|
  {
    if es != [] {
      AssignFrom(m, es[0]);
      StoreAllFrom(Assign(m, es[0]), es[1..]);
      assert es == [es[0]] + es[1..];
    }
  }

  /**
   * `head_map` holds exactly the accepted pairs among the first 80: an item is
   * in it if and only if it is one of the first `min(80, n)` pairs `(k, hdr[k])`
   * of the `n` that the filter accepts, in keyword order.
   */
  lemma HeadMapExact(h: Header)
    ensures var kept := Kept(h, KeysOf(h));
      var n := if MaxTaken < |kept| then MaxTaken else |kept|;
      forall x :: x in HeadMap(h) <==> x in kept[..n]
  {
    var ks := KeysOf(h);
    var t := Taken(h, ks, MaxTaken);
    var m := StoreAll([], t);
    assert m == HeadMap(h);
    TakenIsKeptPrefix(h, ks, MaxTaken);
    TakenFetched(h, ks, MaxTaken);
    StoreAllFetched(h, [], t);
    StoredAreTaken(h, t, m);
  }

  /**
   * A dict filled from empty by the lookups `t` holds exactly the pairs of `t`:
   * each assigned key is present, and holds the one value its lookup gives.
   */
  lemma StoredAreTaken(h: Header, t: seq<Entry>, m: seq<Entry>)
    requires m == StoreAll([], t) && Fetched(h, t) && Fetched(h, m)
    ensures forall x :: x in m <==> x in t
  {
    StoreAllFrom([], t);
    StoreAllHasKeys([], t);
    forall x | x in t ensures x in m {
      var i :| 0 <= i < |t| && t[i] == x;
      var j :| 0 <= j < |m| && EntryKeys(m)[j] == x.0;
      assert m[j].0 == x.0;
    }
  }

  /** Every item holds the lookup of its own key. */
  predicate Fetched(h: Header, m: seq<Entry>)
  {
    forall i :: 0 <= i < |m| ==> Fetch(h, m[i].0) == Found(m[i].1)
  }

  lemma FetchedPrepend(h: Header, x: Entry, r: seq<Entry>)
    requires Fetch(h, x.0) == Found(x.1) && Fetched(h, r)
    ensures Fetched(h, [x] + r)
  {
    forall i | 0 <= i < |[x] + r| ensures Fetch(h, ([x] + r)[i].0) == Found(([x] + r)[i].1) {
      if i > 0 {
        assert ([x] + r)[i] == r[i - 1];
      }
    }
  }

  lemma FetchedTail(h: Header, m: seq<Entry>)
    requires m != [] && Fetched(h, m)
    ensures Fetched(h, m[1..])
  {
    assert forall i :: 0 <= i < |m[1..]| ==> m[1..][i] == m[i + 1];
  }

  /** Every assignment the header loop performs stores `hdr[k]` under `k`. */
  lemma {:induction false} TakenFetched(h: Header, ks: seq<string>, room: nat)
    ensures Fetched(h, Taken(h, ks, room))
    decreases |ks|
  {
    if ks != [] {
      TakenFetched(h, ks[1..], room);
      if room > 0 {
        TakenFetched(h, ks[1..], room - 1);
        var k := ks[0];
        if !Commentary(k) && Fetch(h, k).Found? && Safe(Fetch(h, k).v) {
          FetchedPrepend(h, (k, Fetch(h, k).v), Taken(h, ks[1..], room - 1));
        }
      }
    }
  }

  /** Assigning a looked-up value keeps every item equal to the lookup of its key. */
  lemma {:induction false} AssignFetched(h: Header, m: seq<Entry>, e: Entry)
    requires Fetched(h, m) && Fetch(h, e.0) == Found(e.1)
    ensures Fetched(h, Assign(m, e))
    decreases |m|
  {
    if m == [] {
      FetchedPrepend(h, e, []);
      assert [e] + [] == [e];
    } else {
      FetchedTail(h, m);
      if m[0].0 == e.0 {
        FetchedPrepend(h, e, m[1..]);
      } else {
        AssignFetched(h, m[1..], e);
        FetchedPrepend(h, m[0], Assign(m[1..], e));
      }
    }
  }

  lemma {:induction false} StoreAllFetched(h: Header, m: seq<Entry>, es: seq<Entry>)
    requires Fetched(h, m) && Fetched(h, es)
    ensures Fetched(h, StoreAll(m, es))
    decreases |es|
  {
    if es != [] {
      AssignFetched(h, m, es[0]);
      FetchedTail(h, es);
      StoreAllFetched(h, Assign(m, es[0]), es[1..]);
    }
  }

  /**
   * `head_map[k] = v` on a key already present replaces that item's value in
   * place and leaves every other item as it was.
   */
  lemma {:induction false} AssignValues(m: seq<Entry>, e: Entry)
    requires DistinctKeys(m)
    ensures e.0 in EntryKeys(m) ==> |Assign(m, e)| == |m|
    ensures e.0 in EntryKeys(m) ==>
      forall i :: 0 <= i < |m| ==> Assign(m, e)[i] == (if m[i].0 == e.0 then e else m[i])
    decreases |m|
  {
    if m != [] {
      var tail := m[1..];
      EntryKeysCons(m[0], tail);
      assert m == [m[0]] + tail;
      if m[0].0 == e.0 {
        assert Assign(m, e) == [e] + tail;
        ReplacedAtHead(m, e);
      } else {
        DistinctTail(m);
        AssignValues(tail, e);
        if e.0 in EntryKeys(m) {
          assert e.0 in EntryKeys(tail);
          assert Assign(m, e) == [m[0]] + Assign(tail, e);
          ReplacedCons(m[0], tail, e, Assign(tail, e));
        }
      }
    }
  }

  /** `r` is `m` with the value of every item keyed `e.0` replaced by `e`'s. */
  predicate Replaced(m: seq<Entry>, e: Entry, r: seq<Entry>)
  {
    |r| == |m| && forall i :: 0 <= i < |m| ==> r[i] == (if m[i].0 == e.0 then e else m[i])
  }

  lemma ReplacedAtHead(m: seq<Entry>, e: Entry)
    requires m != [] && m[0].0 == e.0 && DistinctKeys(m)
    ensures Replaced(m, e, [e] + m[1..])
  {
    var r := [e] + m[1..];
    forall i | 0 < i < |m| ensures r[i] == m[i] && m[i].0 != e.0 {
      assert r[i] == m[1..][i - 1];
    }
  }

  lemma ReplacedCons(x: Entry, t: seq<Entry>, e: Entry, rt: seq<Entry>)
    requires x.0 != e.0 && Replaced(t, e, rt)
    ensures Replaced([x] + t, e, [x] + rt)
  {
    var m, r := [x] + t, [x] + rt;
    forall i | 0 < i < |m| ensures r[i] == (if m[i].0 == e.0 then e else m[i]) {
      assert r[i] == rt[i - 1] && m[i] == t[i - 1];
    }
  }

  /** Storing a run into an empty dict keeps the keys in the run's order. */
  /** The keys of `ks` not in `seen`, each at its first occurrence, in order. */
  function Unseen(seen: seq<string>, ks: seq<string>): seq<string>
    decreases |ks|
  {
    if ks == [] then []
    else if ks[0] in seen then Unseen(seen, ks[1..])
    else [ks[0]] + Unseen(seen + [ks[0]], ks[1..])
  }

  /** Each key of `ks` at its first occurrence only. */
  function FirstOccurrences(ks: seq<string>): seq<string>
  {
    Unseen([], ks)
  }

  /**
   * A run of assignments keeps the dict's keys where they are and appends each
   * new key at its first assignment: a later assignment of a key never moves it.
   */
  lemma {:induction false} StoreAllKeys(m: seq<Entry>, es: seq<Entry>)
    ensures EntryKeys(StoreAll(m, es)) == EntryKeys(m) + Unseen(EntryKeys(m), EntryKeys(es))
    decreases |es|
  {
    if es == [] {
      assert EntryKeys(m) + [] == EntryKeys(m);
    } else {
      var e, rest := es[0], es[1..];
      assert es == [e] + rest;
      EntryKeysCons(e, rest);
      UnseenCons(EntryKeys(m), e.0, EntryKeys(rest));
      AssignKeysStep(m, e);
      StoreAllKeys(Assign(m, e), rest);
      KeysAppend(EntryKeys(m), e.0, Unseen(EntryKeys(m) + [e.0], EntryKeys(rest)));
    }
  }

  lemma UnseenCons(seen: seq<string>, k: string, ks: seq<string>)
    ensures Unseen(seen, [k] + ks) == if k in seen then Unseen(seen, ks) else [k] + Unseen(seen + [k], ks)
  {
    assert ([k] + ks)[0] == k && ([k] + ks)[1..] == ks;
  }

  lemma AssignKeysStep(m: seq<Entry>, e: Entry)
    ensures EntryKeys(Assign(m, e)) == if e.0 in EntryKeys(m) then EntryKeys(m) else EntryKeys(m) + [e.0]
  {
    if e.0 !in EntryKeys(m) {
      EntryKeysSnoc(m, e);
    }
  }

  lemma EntryKeysSnoc(m: seq<Entry>, e: Entry)
    ensures EntryKeys(m + [e]) == EntryKeys(m) + [e.0]
  {
    var a, b := EntryKeys(m + [e]), EntryKeys(m) + [e.0];
    assert |a| == |b|;
    forall i | 0 <= i < |a| ensures a[i] == b[i] {
      if i < |m| {
        assert (m + [e])[i] == m[i];
      }
    }
  }

  lemma KeysAppend(km: seq<string>, k: string, u: seq<string>)
    ensures km + [k] + u == km + ([k] + u)
  {
  }

  /** The keys of a dict filled from empty are the assigned keys at their first occurrences. */
  lemma StoreKeysFirstOccurrences(es: seq<Entry>)
    ensures EntryKeys(StoreAll([], es)) == FirstOccurrences(EntryKeys(es))
  {
    StoreAllKeys([], es);
    assert EntryKeys([]) == [];
    assert [] + Unseen([], EntryKeys(es)) == Unseen([], EntryKeys(es));
  }

  lemma StoreInOrder(es: seq<Entry>)
    ensures IsSubseq(EntryKeys(StoreAll([], es)), EntryKeys(es))
  {
    StoreAllInOrder([], es, []);
    assert [] + EntryKeys(es) == EntryKeys(es);
  }

  // ---------------------------------------------------------------------------
  // The NAXIS entries

  /** Python truthiness of a header value. */
  predicate Truthy(v: Value)
  {
    match v
    case Str(s) => s != ""
    case Int(i) => i != 0
    case Float(f) => f != 0.0
    case Bool(b) => b
    case NoneV => false
    case Other(_, truthy) => truthy
  }

  /** `x + 1` for the value of `hdr.get("NAXIS") or 0`; `bool` is an `int` subtype in Python. */
  function PlusOne(x: Value): Result<Value>
  {
    match x
    case Int(i) => Ok(Int(i + 1))
    case Bool(b) => Ok(Int(if b then 2 else 1))
    case Float(f) => Ok(Float(f + 1.0))
    case _ => Err("TypeError")
  }

  /** The length of `range(1, stop)`; a non-integer bound raises. */
  function RangeFromOne(stop: Value): Result<nat>
  {
    if stop.Int? then Ok(if stop.i > 1 then stop.i - 1 else 0) else Err("TypeError")
  }

  /** How many `NAXISn` entries `range(1, (NAXIS or 0) + 1)` produces. */
  function AxisCount(naxis: Value): (r: Result<nat>)
    ensures !Truthy(naxis) ==> r == Ok(0)
    ensures naxis.Int? ==> r == Ok(if naxis.i > 0 then naxis.i else 0)
    ensures naxis == Bool(true) ==> r == Ok(1)
    ensures Truthy(naxis) && (naxis.Str? || naxis.Float? || naxis.Other?) ==> r.Err?
  {
    var x := if Truthy(naxis) then naxis else Int(0);
    match PlusOne(x)
    case Err(e) => Err(e)
    case Ok(stop) => RangeFromOne(stop)
  }

  /** `f"NAXIS{ax}"`. */
  function AxisKey(ax: nat): string
  {
    "NAXIS" + Show(ax)
  }

  /** Different axes get different keys. */
  lemma AxisKeyInjective(a: nat, b: nat)
    ensures AxisKey(a) == AxisKey(b) ==> a == b
  {
    if AxisKey(a) == AxisKey(b) {
      assert AxisKey(a)[5..] == Show(a) && AxisKey(b)[5..] == Show(b);
      ShowInjective(a, b);
    }
  }

  /**
   * The entries `NAXISax .. NAXISn`, each `hdr.get` of its key (a missing
   * key gives `None`); the first lookup that raises ends it with that error.
   */
  function Axes(h: Header, ax: nat, n: nat): Result<seq<Entry>>
    requires ax >= 1
    decreases n + 1 - ax
  {
    if ax > n then Ok([])
    else match Get(h, AxisKey(ax), NoneV)
      case Raises(e) => Err(e)
      case Found(v) =>
        match Axes(h, ax + 1, n)
        case Err(e) => Err(e)
        case Ok(rest) => Ok([(AxisKey(ax), v)] + rest)
  }

  /**
   * The entries exist exactly when no lookup raises; then there is one per
   * axis `ax .. n`, in order, keyed `NAXISax` and holding `hdr.get` of that key.
   */
  lemma AxesShape(h: Header, ax: nat, n: nat)
    requires 1 <= ax <= n + 1
    ensures Axes(h, ax, n).Ok? <==> forall a :: ax <= a <= n ==> Get(h, AxisKey(a), NoneV).Found?
    ensures Axes(h, ax, n).Ok? ==>
      |Axes(h, ax, n).value| == n + 1 - ax &&
      forall i :: 0 <= i < n + 1 - ax ==>
        Axes(h, ax, n).value[i] == (AxisKey(ax + i), Get(h, AxisKey(ax + i), NoneV).v)
  {
    AxesOk(h, ax, n);
    if Axes(h, ax, n).Ok? {
      AxesValues(h, ax, n, Axes(h, ax, n).value);
    }
  }

  lemma {:induction false} AxesOk(h: Header, ax: nat, n: nat)
    requires 1 <= ax <= n + 1
    ensures Axes(h, ax, n).Ok? <==> forall a :: ax <= a <= n ==> Get(h, AxisKey(a), NoneV).Found?
    decreases n + 1 - ax
  {
    if ax <= n {
      AxesOk(h, ax + 1, n);
      AxesUnfold(h, ax, n);
      assert (forall a :: ax <= a <= n ==> Get(h, AxisKey(a), NoneV).Found?) <==>
        Get(h, AxisKey(ax), NoneV).Found? && forall a :: ax + 1 <= a <= n ==> Get(h, AxisKey(a), NoneV).Found?;
    }
  }

  lemma AxesValues(h: Header, ax: nat, n: nat, es: seq<Entry>)
    requires 1 <= ax <= n + 1 && Axes(h, ax, n) == Ok(es)
    ensures |es| == n + 1 - ax
    ensures forall i :: 0 <= i < |es| ==> es[i].0 == AxisKey(ax + i) && Get(h, AxisKey(ax + i), NoneV) == Found(es[i].1)
  {
    AxesLength(h, ax, n, es);
    forall i | 0 <= i < |es|
      ensures es[i].0 == AxisKey(ax + i) && Get(h, AxisKey(ax + i), NoneV) == Found(es[i].1)
    {
      var a := ax + i;
      AxesEntry(h, ax, n, es, a);
      assert a - ax == i;
    }
  }

  lemma {:induction false} AxesLength(h: Header, ax: nat, n: nat, es: seq<Entry>)
    requires 1 <= ax <= n + 1 && Axes(h, ax, n) == Ok(es)
    ensures |es| == n + 1 - ax
    decreases n + 1 - ax
  {
    if ax <= n {
      var rest := Axes(h, ax + 1, n).value;
      AxesUnfold(h, ax, n);
      AxesLength(h, ax + 1, n, rest);
    }
  }

  /** Entry `i` of the axes from `ax` is axis `ax + i`. */
  lemma {:induction false} AxesEntry(h: Header, ax: nat, n: nat, es: seq<Entry>, a: nat)
    requires 1 <= ax <= a <= n && Axes(h, ax, n) == Ok(es)
    ensures a - ax < |es| && es[a - ax].0 == AxisKey(a) && Get(h, AxisKey(a), NoneV) == Found(es[a - ax].1)
    decreases a - ax
  {
    AxesUnfold(h, ax, n);
    var g := Get(h, AxisKey(ax), NoneV);
    assert g.Found? && Axes(h, ax + 1, n).Ok?;
    var rest := Axes(h, ax + 1, n).value;
    assert es == [(AxisKey(ax), g.v)] + rest;
    if a > ax {
      AxesEntry(h, ax + 1, n, rest, a);
      assert es[a - ax] == rest[a - (ax + 1)];
    }
  }

  /** Continue a partial list of entries with the outcome of the rest. */
  function Prepend(acc: seq<Entry>, r: Result<seq<Entry>>): Result<seq<Entry>>
  {
    if r.Ok? then Ok(acc + r.value) else r
  }

  lemma PrependStep(acc: seq<Entry>, e: Entry, r: Result<seq<Entry>>)
    ensures Prepend(acc, Prepend([e], r)) == Prepend(acc + [e], r)
  {
    if r.Ok? {
      assert acc + ([e] + r.value) == (acc + [e]) + r.value;
    }
  }

  /** One axis of `Axes`: its lookup raises, or it leads the entries of the rest. */
  lemma AxesUnfold(h: Header, ax: nat, n: nat)
    requires 1 <= ax <= n
    ensures var got := Get(h, AxisKey(ax), NoneV);
      (got.Raises? ==> Axes(h, ax, n) == Err(got.error)) &&
      (got.Found? ==> Axes(h, ax, n) == Prepend([(AxisKey(ax), got.v)], Axes(h, ax + 1, n)))
  {
  }

  /** The loop `for ax in range(1, n + 1): info[f"NAXIS{ax}"] = hdr.get(f"NAXIS{ax}")`. */
  method CollectAxes(h: Header, n: nat) returns (r: Result<seq<Entry>>)
    ensures r == Axes(h, 1, n)
  {
    var acc: seq<Entry> := [];
    var ax := 1;
    assert Axes(h, 1, n).Ok? ==> [] + Axes(h, 1, n).value == Axes(h, 1, n).value;
    while ax <= n
      invariant 1 <= ax <= n + 1
      invariant Axes(h, 1, n) == Prepend(acc, Axes(h, ax, n))
      decreases n + 1 - ax
    {
      var got := Get(h, AxisKey(ax), NoneV);
      AxesUnfold(h, ax, n);
      if got.Raises? {
        return Err(got.error);
      }
      PrependStep(acc, (AxisKey(ax), got.v), Axes(h, ax + 1, n));
      acc := acc + [(AxisKey(ax), got.v)];
      ax := ax + 1;
    }
    assert acc + [] == acc;
    return Ok(acc);
  }

  // ---------------------------------------------------------------------------
  // The per-HDU summary

  /** The outcome of the `nanmin`/`nanmax`/`nanmean` block: the three floats, or the caught exception's repr. */
  datatype Stats = Stats(min: real, max: real, mean: real) | StatsError(repr: string)

  /** An HDU's data array: its dtype name, its shape and what its statistics come to. */
  datatype Data = Data(dtype: string, shape: seq<nat>, stats: Stats)

  /** An HDU: its class name, and its header and data when it has them. */
  datatype Hdu = Hdu(className: string, header: Option<Header>, data: Option<Data>)

  datatype HeaderInfo = HeaderInfo(headMap: seq<Entry>, naxis: Value, axes: seq<Entry>)
  datatype DataInfo = DataInfo(dtype: string, shape: seq<nat>, stats: Option<Stats>)

  /** One element of `summary["hdus"]`. */
  datatype HduInfo = HduInfo(index: nat, className: string, header: Option<HeaderInfo>, data: Option<DataInfo>)

  datatype Summary = Summary(path: string, numHdus: nat, hdus: seq<HduInfo>)

  /** The header part of an HDU's info; a `hdr.get` that raises propagates. */
  function HeaderSummary(h: Header): (r: Result<HeaderInfo>)
    ensures r.Ok? ==> r.value.headMap == HeadMap(h) && Get(h, "NAXIS", NoneV) == Found(r.value.naxis)
    ensures r.Ok? ==> AxisCount(r.value.naxis) == Ok(|r.value.axes|) && Axes(h, 1, |r.value.axes|) == Ok(r.value.axes)
  {
    match Get(h, "NAXIS", NoneV)
    case Raises(e) => Err(e)
    case Found(naxis) =>
      match AxisCount(naxis)
      case Err(e) => Err(e)
      case Ok(n) =>
        AxesShape(h, 1, n);
        match Axes(h, 1, n)
        case Err(e) => Err(e)
        case Ok(axes) => Ok(HeaderInfo(HeadMap(h), naxis, axes))
  }

  /**
   * `NAXISn` entries exist for `n = 1 .. NAXIS` and no others, each holding
   * `hdr.get("NAXISn")`; there are none when `NAXIS` is missing, `0` or otherwise falsy.
   */
  lemma NaxisEntries(h: Header, info: HeaderInfo)
    requires HeaderSummary(h) == Ok(info)
    ensures !Truthy(info.naxis) ==> info.axes == []
    ensures !HasKey(h, "NAXIS") ==> info.naxis == NoneV
    ensures info.naxis.Int? ==> |info.axes| == if info.naxis.i > 0 then info.naxis.i else 0
    ensures forall i :: 0 <= i < |info.axes| ==>
      info.axes[i].0 == AxisKey(i + 1) && Get(h, AxisKey(i + 1), NoneV) == Found(info.axes[i].1)
  {
    var n := |info.axes|;
    assert AxisCount(info.naxis) == Ok(n) && Axes(h, 1, n) == Ok(info.axes);
    AxesShape(h, 1, n);
    forall i | 0 <= i < n
      ensures info.axes[i].0 == AxisKey(i + 1) && Get(h, AxisKey(i + 1), NoneV) == Found(info.axes[i].1)
    {
      assert info.axes[i] == (AxisKey(1 + i), Get(h, AxisKey(1 + i), NoneV).v);
    }
  }

  /** The data part: statistics are reported only for a non-empty array. */
  function DataSummary(d: Data): (r: DataInfo)
    ensures r.stats.Some? <==> Size(d.shape) > 0
  {
    DataInfo(d.dtype, d.shape, if Size(d.shape) > 0 then Some(d.stats) else None)
  }

  /** The info of the HDU at position `i`. */
  function HduSummary(hdu: Hdu, i: nat): (r: Result<HduInfo>)
    ensures hdu.header.None? ==> r.Ok?
    ensures r.Ok? ==> r.value.index == i && r.value.className == hdu.className
    ensures r.Ok? ==> (r.value.header.Some? <==> hdu.header.Some?) && (r.value.data.Some? <==> hdu.data.Some?)
  {
    var data := if hdu.data.Some? then Some(DataSummary(hdu.data.value)) else None;
    if hdu.header.None? then Ok(HduInfo(i, hdu.className, None, data))
    else match HeaderSummary(hdu.header.value)
      case Err(e) => Err(e)
      case Ok(hi) => Ok(HduInfo(i, hdu.className, Some(hi), data))
  }

  /** The header part, computed by the two loops. */
  method CollectHeaderInfo(h: Header) returns (r: Result<HeaderInfo>)
    ensures r == HeaderSummary(h)
  {
    var got := Get(h, "NAXIS", NoneV);
    var headMap := CollectHeader(h);
    if got.Raises? {
      return Err(got.error);
    }
    var count := AxisCount(got.v);
    if count.Err? {
      return Err(count.error);
    }
    var axes := CollectAxes(h, count.value);
    if axes.Err? {
      return Err(axes.error);
    }
    return Ok(HeaderInfo(headMap, got.v, axes.value));
  }

  /**
   * `analyze_fits`: one info per HDU, in order, each carrying its position;
   * the first HDU whose summary raises ends it with that error.
   */
  method Analyze(path: string, hdul: seq<Hdu>) returns (r: Result<Summary>)
    ensures r.Ok? <==> forall i :: 0 <= i < |hdul| ==> HduSummary(hdul[i], i).Ok?
    ensures r.Ok? ==> r.value.path == path && r.value.numHdus == |hdul| && |r.value.hdus| == |hdul|
    ensures r.Ok? ==> forall i :: 0 <= i < |hdul| ==>
      r.value.hdus[i] == HduSummary(hdul[i], i).value && r.value.hdus[i].index == i
    ensures r.Err? ==> exists i ::
      0 <= i < |hdul| && HduSummary(hdul[i], i) == Err(r.error) &&
      forall j :: 0 <= j < i ==> HduSummary(hdul[j], j).Ok?
  {
    var hdus: seq<HduInfo> := [];
    var i := 0;
    while i < |hdul|
      invariant 0 <= i <= |hdul| && |hdus| == i
      invariant forall j :: 0 <= j < i ==> HduSummary(hdul[j], j) == Ok(hdus[j])
    {
      var hdu := hdul[i];
      var header: Option<HeaderInfo> := None;
      if hdu.header.Some? {
        var hi := CollectHeaderInfo(hdu.header.value);
        if hi.Err? {
          return Err(hi.error);
        }
        header := Some(hi.value);
      }
      var data := if hdu.data.Some? then Some(DataSummary(hdu.data.value)) else None;
      hdus := hdus + [HduInfo(i, hdu.className, header, data)];
      i := i + 1;
    }
    return Ok(Summary(path, |hdul|, hdus));
  }
}
