/**
 * The slot list of the view, seen as a sequence of entries: the slot record,
 * its id and the drawable it holds. The view's list operations are specified
 * by the functions here.
 */
module SlotList {
  import opened Wrappers
  import opened Graphics

  /** One slot of the list. `S` is the record class of the view version. */
  datatype Entry<S> = Entry(slot: S, id: int, drawable: Drawable?)

  /** Every slot is a distinct record. */
  ghost predicate DistinctSlots<S>(es: seq<Entry<S>>)
  {
    forall i, j :: 0 <= i < j < |es| ==> es[i].slot != es[j].slot
  }

  /** Ids other than `NO_ID` occur at most once. */
  ghost predicate UniqueIds<S>(es: seq<Entry<S>>)
  {
    forall i, j :: 0 <= i < j < |es| && es[i].id != NO_ID ==> es[i].id != es[j].id
  }

  /** Every slot holds a drawable. */
  ghost predicate AllFilled<S>(es: seq<Entry<S>>)
  {
    forall i :: 0 <= i < |es| ==> es[i].drawable != null
  }

  /** The shape every list of the view keeps. */
  ghost predicate WellFormed<S>(es: seq<Entry<S>>)
  {
    DistinctSlots(es) && UniqueIds(es) && AllFilled(es)
  }

  /** Some slot holds `d`. */
  ghost predicate Holds<S>(es: seq<Entry<S>>, d: Drawable?)
  {
    exists i :: 0 <= i < |es| && es[i].drawable == d
  }

  /** The index of the first slot whose id is `id` (which may be `NO_ID`). */
  function IndexOfId<S>(es: seq<Entry<S>>, id: int): (r: Option<nat>)
    ensures r.Some? ==> r.value < |es| && es[r.value].id == id
    ensures r.Some? ==> forall j :: 0 <= j < r.value ==> es[j].id != id
    ensures r.None? <==> forall j :: 0 <= j < |es| ==> es[j].id != id
    decreases |es|
  {
    if es == [] then None
    else if es[0].id == id then Some(0)
    else
      match IndexOfId(es[1..], id)
      case None => None
      case Some(k) => Some(k + 1)
  }

  /** The list without its slot at `k`; the others keep their order. */
  function RemoveAt<S>(es: seq<Entry<S>>, k: nat): (r: seq<Entry<S>>)
    requires k < |es|
    ensures |r| == |es| - 1
    ensures forall j :: 0 <= j < k ==> r[j] == es[j]
    ensures forall j :: k <= j < |r| ==> r[j] == es[j + 1]
  {
    es[..k] + es[k + 1..]
  }

  /** The list without every slot that holds `d`. */
  function Without<S>(es: seq<Entry<S>>, d: Drawable?): (r: seq<Entry<S>>)
    ensures |r| <= |es|
    ensures forall i :: 0 <= i < |r| ==> r[i] in es && r[i].drawable != d
    ensures forall i :: 0 <= i < |es| && es[i].drawable != d ==> es[i] in r
    decreases |es|
  {
    if es == [] then []
    else if es[0].drawable == d then Without(es[1..], d)
    else [es[0]] + Without(es[1..], d)
  }

  /** Filtering distributes over concatenation, so the kept slots stay in their order. */
  lemma {:induction false} WithoutAppend<S>(a: seq<Entry<S>>, b: seq<Entry<S>>, d: Drawable?)
    ensures Without(a + b, d) == Without(a, d) + Without(b, d)
    decreases |a|
  {
    if a == [] {
      assert a + b == b;
    } else {
      assert (a + b)[1..] == a[1..] + b;
      WithoutAppend(a[1..], b, d);
    }
  }

  /** A list where no slot holds `d` is left as it is. */
  lemma {:induction false} WithoutUnheld<S>(es: seq<Entry<S>>, d: Drawable?)
    requires !Holds(es, d)
    ensures Without(es, d) == es
    decreases |es|
  {
    if es != [] {
      assert es[0].drawable != d;
      WithoutUnheld(es[1..], d);
      assert [es[0]] + es[1..] == es;
    }
  }

  /** Filtering a list whose head holds `d` is filtering its tail. */
  lemma WithoutHeldHead<S>(es: seq<Entry<S>>, k: nat, d: Drawable?)
    requires k < |es| && es[k].drawable == d
    ensures Without(es[k..], d) == Without(es[k + 1..], d)
  {
    assert es[k..][1..] == es[k + 1..];
  }

  /** Filtering a list whose head does not hold `d` keeps the head. */
  lemma WithoutKeptHead<S>(es: seq<Entry<S>>, k: nat, d: Drawable?)
    requires k < |es| && es[k].drawable != d
    ensures Without(es[k..], d) == [es[k]] + Without(es[k + 1..], d)
  {
    assert es[k..][1..] == es[k + 1..];
  }

  /** After the slots of `b` holding `d` are dropped, `d` is held only if `a` holds it. */
  lemma HoldsAfterWithout<S>(a: seq<Entry<S>>, b: seq<Entry<S>>, d: Drawable?)
    ensures Holds(a + Without(b, d), d) <==> Holds(a, d)
  {
    var w := Without(b, d);
    if Holds(a + w, d) {
      var i :| 0 <= i < |a + w| && (a + w)[i].drawable == d;
      assert a[i].drawable == d;
    }
    if Holds(a, d) {
      var i :| 0 <= i < |a| && a[i].drawable == d;
      assert (a + w)[i] == a[i];
    }
  }

  /** A suffix holds `d` when its first slot or the rest does. */
  lemma HoldsSuffix<S>(es: seq<Entry<S>>, k: nat, d: Drawable?)
    requires k < |es|
    ensures Holds(es[k..], d) <==> es[k].drawable == d || Holds(es[k + 1..], d)
  {
    if Holds(es[k..], d) {
      var i :| 0 <= i < |es[k..]| && es[k..][i].drawable == d;
      assert i == 0 || es[k + 1..][i - 1] == es[k..][i];
    }
    if Holds(es[k + 1..], d) {
      var i :| 0 <= i < |es[k + 1..]| && es[k + 1..][i].drawable == d;
      assert es[k..][i + 1] == es[k + 1..][i];
    }
    assert es[k..][0] == es[k];
  }

  /** A prefix holds `d` when the shorter prefix or its last slot does. */
  lemma HoldsPrefix<S>(es: seq<Entry<S>>, k: nat, d: Drawable?)
    requires k < |es|
    ensures Holds(es[..k + 1], d) <==> Holds(es[..k], d) || es[k].drawable == d
  {
    if Holds(es[..k + 1], d) {
      var i :| 0 <= i < k + 1 && es[..k + 1][i].drawable == d;
      assert i == k || es[..k][i] == es[i];
    }
    if Holds(es[..k], d) {
      var i :| 0 <= i < k && es[..k][i].drawable == d;
      assert es[..k + 1][i] == es[i];
    }
    assert es[..k + 1][k] == es[k];
  }

  /**
   * One step of removing `d` from the back: once the slots past `k` are
   * filtered, dropping slot `k` (which holds `d`) filters from `k` on.
   */
  lemma {:induction false} RemoveHeldStep<S>(es: seq<Entry<S>>, k: nat, d: Drawable?)
    requires k < |es| && es[k].drawable == d
    ensures RemoveAt(es[..k + 1] + Without(es[k + 1..], d), k) == es[..k] + Without(es[k..], d)
    ensures Holds(es[k..], d) && Holds(es[..k + 1], d)
    ensures Holds(es[..k] + Without(es[k..], d), d) <==> Holds(es[..k], d)
  {
    WithoutHeldHead(es, k, d);
    var e := es[..k + 1] + Without(es[k + 1..], d);
    assert e[..k] == es[..k];
    assert e[k + 1..] == Without(es[k + 1..], d);
    HoldsSuffix(es, k, d);
    HoldsPrefix(es, k, d);
    HoldsAfterWithout(es[..k], es[k..], d);
  }

  /** One step of removing `d` from the back past a slot `k` that does not hold it. */
  lemma {:induction false} KeepStep<S>(es: seq<Entry<S>>, k: nat, d: Drawable?)
    requires k < |es| && es[k].drawable != d
    ensures es[..k + 1] + Without(es[k + 1..], d) == es[..k] + Without(es[k..], d)
    ensures Holds(es[k..], d) <==> Holds(es[k + 1..], d)
    ensures Holds(es[..k + 1], d) <==> Holds(es[..k], d)
  {
    WithoutKeptHead(es, k, d);
    var w := Without(es[k + 1..], d);
    assert es[..k] + [es[k]] == es[..k + 1];
    assert es[..k] + ([es[k]] + w) == (es[..k] + [es[k]]) + w;
    HoldsSuffix(es, k, d);
    HoldsPrefix(es, k, d);
  }

  /** Removing a slot keeps the list well formed. */
  lemma RemoveAtWellFormed<S>(es: seq<Entry<S>>, k: nat)
    requires k < |es| && WellFormed(es)
    ensures WellFormed(RemoveAt(es, k))
  {
    var r := RemoveAt(es, k);
    forall i, j | 0 <= i < j < |r|
      ensures r[i].slot != r[j].slot
      ensures r[i].id != NO_ID ==> r[i].id != r[j].id
    {
      var i' := if i < k then i else i + 1;
      var j' := if j < k then j else j + 1;
      assert r[i] == es[i'] && r[j] == es[j'] && i' < j';
    }
  }

  /** Appending a new slot with a fresh record and an unused id keeps the list well formed. */
  lemma AppendWellFormed<S>(es: seq<Entry<S>>, e: Entry<S>)
    requires WellFormed(es)
    requires forall i :: 0 <= i < |es| ==> es[i].slot != e.slot
    requires e.id == NO_ID || IndexOfId(es, e.id).None?
    requires e.drawable != null
    ensures WellFormed(es + [e])
  {
  }

  /** Giving a slot another drawable keeps the list well formed. */
  lemma ReplaceWellFormed<S>(es: seq<Entry<S>>, k: nat, d: Drawable)
    requires k < |es| && WellFormed(es)
    ensures WellFormed(es[k := es[k].(drawable := d)])
  {
  }

  /** Every drawable some slot holds has the view as its callback. */
  ghost predicate CallbacksCover<S>(es: seq<Entry<S>>, attached: set<Drawable?>)
  {
    forall i :: 0 <= i < |es| ==> es[i].drawable in attached
  }

  /** The callbacks after slot `k` is removed, when its drawable is always detached. */
  ghost function DetachAlways<S>(attached: set<Drawable?>, es: seq<Entry<S>>, k: nat): set<Drawable?>
    requires k < |es|
  {
    attached - {es[k].drawable}
  }

  /** The callbacks after slot `k` is removed, when its drawable is detached only if no other slot holds it. */
  ghost function DetachUnlessHeld<S>(attached: set<Drawable?>, es: seq<Entry<S>>, k: nat): set<Drawable?>
    requires k < |es|
  {
    var prev := es[k].drawable;
    if Holds(RemoveAt(es, k), prev) then attached else attached - {prev}
  }

  /** The callbacks after slot `k` is given `d`, when its old drawable is always detached. */
  ghost function ReattachAlways<S>(attached: set<Drawable?>, es: seq<Entry<S>>, k: nat, d: Drawable?): set<Drawable?>
    requires k < |es|
  {
    attached - {es[k].drawable} + {d}
  }

  /** The callbacks after slot `k` is given `d`, when its old drawable is detached only if no slot holds it any more. */
  ghost function ReattachUnlessHeld<S>(attached: set<Drawable?>, es: seq<Entry<S>>, k: nat, d: Drawable?): set<Drawable?>
    requires k < |es|
  {
    var prev := es[k].drawable;
    (if Holds(es[k := es[k].(drawable := d)], prev) then attached else attached - {prev}) + {d}
  }

  /**
   * Detaching the removed slot's drawable unconditionally can leave a slot
   * showing a drawable without a callback: two slots share `d` and the first
   * is removed.
   */
  lemma {:induction false} DetachAlwaysCanBreakCover<S>(s0: S, s1: S, d: Drawable)
    requires s0 != s1
    ensures var es := [Entry(s0, 1, d), Entry(s1, 2, d)];
      && WellFormed(es) && CallbacksCover(es, {d})
      && !CallbacksCover(RemoveAt(es, 0), DetachAlways({d}, es, 0))
  {
    var es := [Entry(s0, 1, d), Entry(s1, 2, d)];
    assert RemoveAt(es, 0)[0].drawable == d;
  }

  /** Detaching only a drawable no remaining slot holds keeps every shown drawable attached. */
  lemma DetachUnlessHeldKeepsCover<S>(es: seq<Entry<S>>, attached: set<Drawable?>, k: nat)
    requires k < |es| && CallbacksCover(es, attached)
    ensures CallbacksCover(RemoveAt(es, k), DetachUnlessHeld(attached, es, k))
  {
  }

  /**
   * Detaching a replaced drawable unconditionally can leave a slot showing a
   * drawable without a callback: two slots share `p` and the first is given `d`.
   */
  lemma {:induction false} ReattachAlwaysCanBreakCover<S>(s0: S, s1: S, p: Drawable, d: Drawable)
    requires s0 != s1 && p != d
    ensures var es := [Entry(s0, 1, p), Entry(s1, 2, p)];
      && WellFormed(es) && CallbacksCover(es, {p})
      && !CallbacksCover(es[0 := es[0].(drawable := d)], ReattachAlways({p}, es, 0, d))
  {
    var es := [Entry(s0, 1, p), Entry(s1, 2, p)];
    assert es[0 := es[0].(drawable := d)][1].drawable == p;
  }

  /** Detaching a replaced drawable only when no slot holds it keeps every shown drawable attached. */
  lemma ReattachUnlessHeldKeepsCover<S>(es: seq<Entry<S>>, attached: set<Drawable?>, k: nat, d: Drawable?)
    requires k < |es| && CallbacksCover(es, attached)
    ensures CallbacksCover(es[k := es[k].(drawable := d)], ReattachUnlessHeld(attached, es, k, d))
  {
  }
}
