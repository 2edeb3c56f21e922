/** A timer handle kept in a React ref, together with the browser's view of which
    timers are still pending. `setTimeout`/`setInterval` allocate a fresh id, and
    `clearTimeout(ref)` cancels only the timer the ref currently names, so a ref
    that is overwritten without a cancel leaks a pending timer. The invariant
    `Valid` says that cannot have happened: every pending timer is the one the ref
    names, hence at most one is pending. */
module Timers {
  import opened Common

  datatype Slot = Slot(ref: Option<nat>, pending: set<nat>, next: nat)

  const Idle := Slot(None, {}, 0)

  /** Every pending timer is the one named by the ref, and ids are fresh. */
  ghost predicate Valid(t: Slot) {
    (forall id :: id in t.pending ==> t.ref == Some(id) && id < t.next) &&
    (t.ref.Some? ==> t.ref.value < t.next)
  }

  predicate Armed(t: Slot) {
    t.pending != {}
  }

  /** `ref = setTimeout(...)` (or `setInterval`): a fresh id becomes pending and the
      ref names it; whatever the ref named before is NOT cancelled. */
  function Arm(t: Slot): (r: Slot)
    ensures r.ref == Some(t.next)
    ensures r.pending == t.pending + {t.next}
    ensures t.pending == {} && Valid(t) ==> Valid(r) && |r.pending| == 1
  {
    Slot(Some(t.next), t.pending + {t.next}, t.next + 1)
  }

  /** `if (ref) { clearTimeout(ref); ref = null; }`. */
  function Cancel(t: Slot): (r: Slot)
    ensures r.ref == None
    ensures Valid(t) ==> Valid(r) && r.pending == {}
    ensures r.pending <= t.pending
  {
    match t.ref
    case None => t
    case Some(id) => Slot(None, t.pending - {id}, t.next)
  }

  /** A one-shot timer `id` fires: it is no longer pending; the ref is untouched
      (the callbacks in this program do not null their own ref). */
  function Fire(t: Slot, id: nat): (r: Slot)
    ensures r.ref == t.ref && r.pending == t.pending - {id}
    ensures Valid(t) ==> Valid(r)
  {
    t.(pending := t.pending - {id})
  }

  /** `ref = null` without a cancel (done once the timer has already fired). */
  function Forget(t: Slot): (r: Slot)
    ensures r.ref == None && r.pending == t.pending
    ensures Valid(t) && t.pending == {} ==> Valid(r)
  {
    t.(ref := None)
  }

  /** Under `Valid`, at most one timer is pending. */
  lemma AtMostOnePending(t: Slot)
    requires Valid(t)
    ensures |t.pending| <= 1
  {
    if t.pending != {} {
      var id :| id in t.pending;
      assert t.pending == {id} by {
        forall x | x in t.pending ensures x == id {
          assert t.ref == Some(x) && t.ref == Some(id);
        }
      }
    }
  }

  /** Arming over a pending timer without cancelling it leaves two timers pending. */
  lemma ArmWithoutCancelLeaks(t: Slot)
    requires Valid(t) && t.pending != {}
    ensures |Arm(t).pending| == 2
    ensures !Valid(Arm(t))
  {
    AtMostOnePending(t);
    var id :| id in t.pending;
    assert t.pending == {id} by {
      forall x | x in t.pending ensures x == id {}
    }
    assert id != t.next;
    assert Arm(t).pending == {id, t.next};
  }
}
