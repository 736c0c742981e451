/**
 * The JSON fallback of the practice store: the file holds a list of
 * practice dictionaries, identified by their `nr` key. Reading and writing
 * the file are left out; each operation is its effect on the list.
 */
module PracticeStore {
  import opened Wrappers
  import opened Records
  import Folds

  /** `p.get('nr') == nr`; a practice without `nr` matches only `None`. */
  predicate HasNr(p: Practice, nr: Option<int>) {
    p.nr == nr
  }

  /** The first position holding `nr`. */
  function IndexOf(ps: seq<Practice>, nr: Option<int>): (r: Option<nat>)
    ensures r.None? <==> forall i | 0 <= i < |ps| :: !HasNr(ps[i], nr)
    ensures r.Some? ==> r.value < |ps| && HasNr(ps[r.value], nr)
                        && forall i | 0 <= i < r.value :: !HasNr(ps[i], nr)
  {
    if ps == [] then None
    else if HasNr(ps[0], nr) then Some(0)
    else match IndexOf(ps[1..], nr)
      case None => None
      case Some(i) => Some(i + 1)
  }

  /** `get_practice` on the JSON list: the first practice with that id, if any. */
  function GetPractice(ps: seq<Practice>, id: int): (r: Option<Practice>)
    ensures r.None? <==> forall i | 0 <= i < |ps| :: ps[i].nr != Some(id)
    ensures r.Some? ==> r.value in ps && r.value.nr == Some(id)
  {
    match IndexOf(ps, Some(id))
    case None => None
    case Some(i) => Some(ps[i])
  }

  /** The practice found is the first one with the id. */
  lemma GetPracticeFirst(ps: seq<Practice>, id: int, i: nat)
    requires i < |ps| && ps[i].nr == Some(id)
    requires forall j | 0 <= j < i :: ps[j].nr != Some(id)
    ensures GetPractice(ps, id) == Some(ps[i])
  {
  }

  /**
   * `_save_to_json_single`: the first practice with the same `nr` is
   * replaced in place; without one, the practice is appended.
   */
  function UpsertSingle(ps: seq<Practice>, p: Practice): (r: seq<Practice>)
    ensures |ps| <= |r| <= |ps| + 1
    ensures p in r
    ensures match IndexOf(ps, p.nr)
            case Some(i) => r == ps[i := p]
            case None => r == ps + [p]
  {
    match IndexOf(ps, p.nr)
    case Some(i) =>
      var r := ps[i := p];
      assert r[i] == p;
      r
    case None => ps + [p]
  }

  /** Reading back an upserted practice by its id gives it back. */
  lemma GetAfterUpsert(ps: seq<Practice>, p: Practice, id: int)
    requires p.nr == Some(id)
    ensures GetPractice(UpsertSingle(ps, p), id) == Some(p)
  {
    var r := UpsertSingle(ps, p);
    match IndexOf(ps, p.nr)
    case Some(i) =>
      assert r[i] == p;
      assert forall j | 0 <= j < i :: r[j] == ps[j];
    case None =>
      assert r[|ps|] == p;
      assert forall j | 0 <= j < |ps| :: r[j] == ps[j];
  }

  /** Upserting a practice leaves every practice with another id where it was. */
  lemma UpsertKeepsOthers(ps: seq<Practice>, p: Practice, i: nat)
    requires i < |ps| && ps[i].nr != p.nr
    ensures UpsertSingle(ps, p)[i] == ps[i]
  {
  }

  // ---- _save_to_json_bulk ----

  /** The ids present in the list, `{p.get('nr') for p in existing}`. */
  function Ids(ps: seq<Practice>): (ids: set<Option<int>>)
    ensures forall nr :: nr in ids <==> IndexOf(ps, nr).Some?
  {
    set i | 0 <= i < |ps| :: ps[i].nr
  }

  /** Whether a practice's id is outside `ids`. */
  function NotIn(ids: set<Option<int>>): Practice -> bool {
    (p: Practice) => p.nr !in ids
  }

  /** The incoming practices whose id is not in `ids`, in order. */
  function NewOnes(news: seq<Practice>, ids: set<Option<int>>): (r: seq<Practice>)
    ensures |r| == Folds.CountOf(news, NotIn(ids))
    ensures forall x | x in r :: x in news && x.nr !in ids
    ensures forall x | x in news && x.nr !in ids :: x in r
    decreases |news|
  {
    if news == [] then []
    else
      assert news == news[..|news| - 1] + [news[|news| - 1]];
      NewOnes(news[..|news| - 1], ids) + (if news[|news| - 1].nr in ids then [] else [news[|news| - 1]])
  }

  /** The filter keeps input order: filtering a concatenation concatenates the filtered parts. */
  lemma {:induction false} NewOnesConcat(a: seq<Practice>, b: seq<Practice>, ids: set<Option<int>>)
    ensures NewOnes(a + b, ids) == NewOnes(a, ids) + NewOnes(b, ids)
    decreases |b|
  {
    if b == [] {
      assert a + b == a;
    } else {
      var init, last := b[..|b| - 1], b[|b| - 1];
      assert (a + b)[..|a + b| - 1] == a + init && (a + b)[|a + b| - 1] == last;
      NewOnesConcat(a, init, ids);
    }
  }

  /** The last incoming practice with id `nr`. */
  function LastWith(news: seq<Practice>, nr: Option<int>): (r: Option<Practice>)
    ensures r.None? <==> forall i | 0 <= i < |news| :: news[i].nr != nr
    ensures r.Some? ==> r.value in news && r.value.nr == nr
    decreases |news|
  {
    if news == [] then None
    else if news[|news| - 1].nr == nr then Some(news[|news| - 1])
    else LastWith(news[..|news| - 1], nr)
  }

  /** Position `i` of the old list after a bulk save: the last incoming practice for the id, if `i` is the first position of that id. */
  function BulkSlot(existing: seq<Practice>, news: seq<Practice>, i: nat): Practice
    requires i < |existing|
  {
    if IndexOf(existing, existing[i].nr) == Some(i) && LastWith(news, existing[i].nr).Some?
    then LastWith(news, existing[i].nr).value
    else existing[i]
  }

  /**
   * What a bulk save should leave, stated position by position: each old
   * position that is the first of its id holds the last incoming practice
   * with that id; every incoming practice with an id unknown before the
   * save is appended, in order, even when several share an id.
   */
  function BulkResult(existing: seq<Practice>, news: seq<Practice>): seq<Practice> {
    OldPart(existing, news) + NewOnes(news, Ids(existing))
  }

  function OldPart(existing: seq<Practice>, news: seq<Practice>): (r: seq<Practice>)
    ensures |r| == |existing|
    ensures forall i | 0 <= i < |existing| :: r[i] == BulkSlot(existing, news, i)
  {
    seq(|existing|, i requires 0 <= i < |existing| => BulkSlot(existing, news, i))
  }

  /** One more incoming practice, as the loop body handles it. */
  lemma BulkStep(existing: seq<Practice>, news: seq<Practice>, x: Practice)
    ensures var s := BulkResult(existing, news);
            BulkResult(existing, news + [x])
            == if x.nr in Ids(existing) then s[IndexOf(existing, x.nr).value := x] else s + [x]
  {
    assert (news + [x])[..|news|] == news;
    if x.nr in Ids(existing) {
      BulkStepKnown(existing, news, x);
    } else {
      BulkStepNew(existing, news, x);
    }
  }

  lemma BulkStepKnown(existing: seq<Practice>, news: seq<Practice>, x: Practice)
    requires x.nr in Ids(existing)
    requires (news + [x])[..|news|] == news
    ensures BulkResult(existing, news + [x]) == BulkResult(existing, news)[IndexOf(existing, x.nr).value := x]
  {
    var k := IndexOf(existing, x.nr).value;
    var ids := Ids(existing);
    var a, a', b := OldPart(existing, news), OldPart(existing, news + [x]), NewOnes(news, ids);
    assert NewOnes(news + [x], ids) == b;
    forall i | 0 <= i < |existing|
      ensures a'[i] == a[k := x][i]
    {
      SlotStep(existing, news, x, i);
    }
    assert a' == a[k := x];
    assert a[k := x] + b == (a + b)[k := x];
  }

  /** A later incoming practice takes over the slot of the first old position with its id. */
  lemma SlotStep(existing: seq<Practice>, news: seq<Practice>, x: Practice, i: nat)
    requires i < |existing|
    requires (news + [x])[..|news|] == news
    ensures BulkSlot(existing, news + [x], i)
            == if IndexOf(existing, x.nr) == Some(i) then x else BulkSlot(existing, news, i)
  {
    assert LastWith(news + [x], existing[i].nr)
           == if x.nr == existing[i].nr then Some(x) else LastWith(news, existing[i].nr);
  }

  lemma BulkStepNew(existing: seq<Practice>, news: seq<Practice>, x: Practice)
    requires x.nr !in Ids(existing)
    requires (news + [x])[..|news|] == news
    ensures BulkResult(existing, news + [x]) == BulkResult(existing, news) + [x]
  {
    var ids := Ids(existing);
    var a, a', b := OldPart(existing, news), OldPart(existing, news + [x]), NewOnes(news, ids);
    assert NewOnes(news + [x], ids) == b + [x];
    forall i | 0 <= i < |existing|
      ensures a'[i] == a[i]
    {
      assert existing[i].nr in ids;
      SlotStep(existing, news, x, i);
    }
    assert a' == a;
    assert a + (b + [x]) == (a + b) + [x];
  }

  /**
   * The loop body of `_save_to_json_bulk`: with an id from the snapshot
   * `ids`, the first practice with that id is replaced (if none is found,
   * nothing happens); with any other id the practice is appended.
   */
  function SaveOne(r: seq<Practice>, ids: set<Option<int>>, x: Practice): seq<Practice> {
    if x.nr in ids then
      match IndexOf(r, x.nr)
      case Some(k) => r[k := x]
      case None => r
    else r + [x]
  }

  /** The loop body turns the result for a prefix of the incoming list into the result for one more. */
  lemma SaveOneStep(existing: seq<Practice>, news: seq<Practice>, x: Practice)
    ensures SaveOne(BulkResult(existing, news), Ids(existing), x) == BulkResult(existing, news + [x])
  {
    BulkStep(existing, news, x);
    BulkKeepsIds(existing, news);
    if x.nr in Ids(existing) {
      IndexOfPrefix(existing, BulkResult(existing, news), x.nr, IndexOf(existing, x.nr).value);
    }
  }

  /** Before any incoming practice, the old list is untouched. */
  lemma BulkResultEmpty(existing: seq<Practice>)
    ensures BulkResult(existing, []) == existing
  {
    assert OldPart(existing, []) == existing;
  }

  /**
   * `_save_to_json_bulk`: the ids of the old list are taken once; an
   * incoming practice with one of those ids replaces the first practice
   * with it, and any other incoming practice is appended.
   */
  method UpsertBulk(existing: seq<Practice>, news: seq<Practice>) returns (r: seq<Practice>)
    ensures r == BulkResult(existing, news)
    ensures |r| == |existing| + |NewOnes(news, Ids(existing))|
    ensures r[|existing|..] == NewOnes(news, Ids(existing))
  {
    var ids := Ids(existing);
    r := existing;
    var i := 0;
    BulkResultEmpty(existing);
    while i < |news|
      invariant 0 <= i <= |news|
      invariant r == BulkResult(existing, news[..i])
    {
      SaveOneStep(existing, news[..i], news[i]);
      assert news[..i + 1] == news[..i] + [news[i]];
      r := SaveOne(r, ids, news[i]);
      i := i + 1;
    }
    assert news[..i] == news;
    BulkKeepsIds(existing, news);
  }

  /** The old positions keep their ids and the incoming practices with new ids follow them. */
  lemma BulkKeepsIds(existing: seq<Practice>, news: seq<Practice>)
    ensures var r := BulkResult(existing, news);
            && |r| == |existing| + |NewOnes(news, Ids(existing))|
            && r[|existing|..] == NewOnes(news, Ids(existing))
            && forall j | 0 <= j < |existing| :: r[j].nr == existing[j].nr
  {
  }

  /** The first position of an old id in the growing list is its first position in the old list. */
  lemma IndexOfPrefix(existing: seq<Practice>, r: seq<Practice>, nr: Option<int>, k: nat)
    requires |existing| <= |r| && IndexOf(existing, nr) == Some(k)
    requires forall i | 0 <= i < |existing| :: r[i].nr == existing[i].nr
    ensures IndexOf(r, nr) == Some(k)
  {
  }

  /** A bulk save of one practice is a single upsert. */
  lemma BulkOfOneIsSingle(existing: seq<Practice>, p: Practice)
    ensures BulkResult(existing, [p]) == UpsertSingle(existing, p)
  {
    BulkResultEmpty(existing);
    SaveOneStep(existing, [], p);
    assert [] + [p] == [p];
  }

  /** Two incoming practices sharing an id the list did not have are both appended: the list then holds that id twice. */
  lemma BulkDuplicatesNewIds(existing: seq<Practice>, a: Practice, b: Practice)
    requires a.nr == b.nr && a.nr !in Ids(existing)
    ensures BulkResult(existing, [a, b]) == existing + [a, b]
  {
    var ids := Ids(existing);
    var n := |existing|;
    assert [a, b][..1] == [a];
    assert NewOnes([a, b], ids) == [a, b];
    forall i | 0 <= i < n
      ensures OldPart(existing, [a, b])[i] == existing[i]
    {
      assert existing[i].nr in ids;
    }
    assert OldPart(existing, [a, b]) == existing;
  }

  // ---- delete_practice ----

  /** The practices without id `id`, in order. */
  function Without(ps: seq<Practice>, id: int): (r: seq<Practice>)
    ensures |r| <= |ps|
    ensures forall x | x in r :: x in ps && x.nr != Some(id)
    ensures forall x | x in ps && x.nr != Some(id) :: x in r
    decreases |ps|
  {
    if ps == [] then []
    else (if ps[0].nr == Some(id) then [] else [ps[0]]) + Without(ps[1..], id)
  }

  /**
   * The JSON branch of `delete_practice`: every practice with the id is
   * removed, and the call reports whether the list got shorter.
   */
  function Delete(ps: seq<Practice>, id: int): (r: (seq<Practice>, bool))
    ensures r.0 == Without(ps, id)
    ensures r.1 <==> exists i | 0 <= i < |ps| :: ps[i].nr == Some(id)
    ensures !r.1 ==> r.0 == ps
  {
    var remaining := Without(ps, id);
    WithoutShorter(ps, id);
    (remaining, |remaining| < |ps|)
  }

  lemma {:induction false} WithoutShorter(ps: seq<Practice>, id: int)
    ensures |Without(ps, id)| < |ps| <==> exists i | 0 <= i < |ps| :: ps[i].nr == Some(id)
    ensures |Without(ps, id)| == |ps| ==> Without(ps, id) == ps
    decreases |ps|
  {
    WithoutSameLength(ps, id);
    if ps != [] {
      var tail, rest := ps[1..], Without(ps[1..], id);
      WithoutShorter(tail, id);
      HasIdTail(ps, id);
      if ps[0].nr == Some(id) {
        assert Without(ps, id) == rest;
      } else {
        assert Without(ps, id) == [ps[0]] + rest;
      }
    }
  }

  /** Removing nothing leaves the list as it was. */
  lemma {:induction false} WithoutSameLength(ps: seq<Practice>, id: int)
    ensures |Without(ps, id)| == |ps| ==> Without(ps, id) == ps
    decreases |ps|
  {
    if ps != [] && ps[0].nr != Some(id) {
      var tail, rest := ps[1..], Without(ps[1..], id);
      WithoutSameLength(tail, id);
      assert Without(ps, id) == [ps[0]] + rest;
      if |rest| == |tail| {
        assert [ps[0]] + tail == ps;
      }
    }
  }

  /** Some record has the id iff the first one has it or some later one does. */
  lemma HasIdTail(ps: seq<Practice>, id: int)
    requires ps != []
    ensures (exists i | 0 <= i < |ps| :: ps[i].nr == Some(id))
            <==> ps[0].nr == Some(id) || exists i | 0 <= i < |ps[1..]| :: ps[1..][i].nr == Some(id)
  {
    if exists i | 0 <= i < |ps| :: ps[i].nr == Some(id) {
      var i :| 0 <= i < |ps| && ps[i].nr == Some(id);
      if i > 0 {
        assert ps[1..][i - 1] == ps[i];
      }
    }
    if exists i | 0 <= i < |ps[1..]| :: ps[1..][i].nr == Some(id) {
      var i :| 0 <= i < |ps[1..]| && ps[1..][i].nr == Some(id);
      assert ps[i + 1] == ps[1..][i];
    }
  }

  /** After a delete the id can no longer be found, and other ids are found as before. */
  lemma GetAfterDelete(ps: seq<Practice>, id: int, other: int)
    requires other != id
    ensures GetPractice(Delete(ps, id).0, id).None?
    ensures GetPractice(Delete(ps, id).0, other) == GetPractice(ps, other)
  {
    WithoutFind(ps, id, other);
  }

  lemma {:induction false} WithoutFind(ps: seq<Practice>, id: int, other: int)
    requires other != id
    ensures GetPractice(Without(ps, id), other) == GetPractice(ps, other)
    decreases |ps|
  {
    if ps != [] {
      var w, rest := Without(ps, id), Without(ps[1..], id);
      WithoutFind(ps[1..], id, other);
      GetPracticeTail(ps, other);
      if ps[0].nr == Some(id) {
        assert w == rest;
      } else {
        assert w == [ps[0]] + rest;
        assert w[0] == ps[0] && w[1..] == rest;
        GetPracticeTail(w, other);
      }
    }
  }

  /** The lookup checks the head first, then the rest. */
  lemma GetPracticeTail(ps: seq<Practice>, id: int)
    requires ps != []
    ensures GetPractice(ps, id) == if ps[0].nr == Some(id) then Some(ps[0]) else GetPractice(ps[1..], id)
  {
  }
}
