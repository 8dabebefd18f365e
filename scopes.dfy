/**
 * An abstract stand-in for the scope manager of the allocation backend that src/eval/mod.rs and
 * src/eval/macros.rs run against: a stack of frames, each mapping names to stored slots, with
 * `alloc` into the innermost frame, `load` searching from the innermost frame outwards, and
 * `push_scope`/`pop_scope`. Garbage collection is not part of this model.
 */
module Scopes {
  import opened Wrappers
  import opened Types

  type Frame = map<string, Slot>

  /** The index of the innermost frame that holds the name, or -1 when none does. */
  function Innermost(frames: seq<Frame>, name: string): (i: int)
    ensures -1 <= i < |frames|
    ensures i >= 0 ==> name in frames[i]
    ensures forall j :: i < j < |frames| ==> name !in frames[j]
    decreases |frames|
  {
    if |frames| == 0 then -1
    else if name in frames[|frames| - 1] then |frames| - 1
    else Innermost(frames[..|frames| - 1], name)
  }

  /**
   * `load`: the slot a binding names in the innermost frame that holds it. An anonymous binding
   * is never found, and a name is missing exactly when no frame holds it.
   */
  function Lookup(frames: seq<Frame>, b: Binding): (r: Option<Slot>)
    ensures r.Some? ==> b.Named? && exists i ::
      && 0 <= i < |frames| && b.name in frames[i] && frames[i][b.name] == r.value
      && forall j :: i < j < |frames| ==> b.name !in frames[j]
    ensures r.None? <==> b.Anon? || forall i :: 0 <= i < |frames| ==> b.name !in frames[i]
  {
    if b.Anon? then None
    else
      var i := Innermost(frames, b.name);
      if i < 0 then None else Some(frames[i][b.name])
  }

  /** The scalar part of the variable stored under the name, if any (`get`). */
  function Get(frames: seq<Frame>, name: string): (r: Option<JsType>)
    ensures r.Some? <==> Lookup(frames, Named(name)).Some?
    ensures r.Some? ==> r.value == Lookup(frames, Named(name)).value.v.t
  {
    match Lookup(frames, Named(name))
    case Some(slot) => Some(slot.v.t)
    case None => None
  }

  /** Replacing a frame by one that holds the name exactly when it did moves nothing. */
  lemma {:induction false} InnermostAfterUpdate(frames: seq<Frame>, k: int, f: Frame, name: string)
    requires 0 <= k < |frames|
    requires name in f <==> name in frames[k]
    ensures Innermost(frames[k := f], name) == Innermost(frames, name)
    decreases |frames|
  {
    var n := |frames|;
    var g := frames[k := f];
    if k < n - 1 {
      assert g[..n - 1] == frames[..n - 1][k := f];
      if name !in frames[n - 1] {
        InnermostAfterUpdate(frames[..n - 1], k, f, name);
      }
    }
  }

  /** Lookups of names other than the one whose slot was replaced are unaffected. */
  lemma LookupAfterUpdate(frames: seq<Frame>, k: int, name: string, slot: Slot, other: string)
    requires 0 <= k < |frames|
    requires other != name
    ensures Lookup(frames[k := frames[k][name := slot]], Named(other)) == Lookup(frames, Named(other))
  {
    InnermostAfterUpdate(frames, k, frames[k][name := slot], other);
  }

  /** `alloc`: stores the slot under the name in the innermost frame. */
  function AllocF(frames: seq<Frame>, name: string, slot: Slot): (r: seq<Frame>)
    requires |frames| > 0
    ensures |r| == |frames|
    ensures Lookup(r, Named(name)) == Some(slot)
    ensures forall other :: other != name ==> Lookup(r, Named(other)) == Lookup(frames, Named(other))
    ensures r[..|r| - 1] == frames[..|frames| - 1]
  {
    var k := |frames| - 1;
    var r := frames[k := frames[k][name := slot]];
    assert forall other :: other != name ==> Lookup(r, Named(other)) == Lookup(frames, Named(other)) by {
      forall other | other != name
        ensures Lookup(r, Named(other)) == Lookup(frames, Named(other))
      {
        LookupAfterUpdate(frames, k, name, slot, other);
      }
    }
    r
  }

  /**
   * `insert`: overwrites the name in the innermost frame that holds it, or stores it in the
   * innermost frame when no frame does.
   */
  function InsertF(frames: seq<Frame>, name: string, slot: Slot): (r: seq<Frame>)
    requires |frames| > 0
    ensures |r| == |frames|
    ensures Lookup(r, Named(name)) == Some(slot)
    ensures forall other :: other != name ==> Lookup(r, Named(other)) == Lookup(frames, Named(other))
  {
    var i := Innermost(frames, name);
    if i < 0 then AllocF(frames, name, slot)
    else
      var r := frames[i := frames[i][name := slot]];
      InnermostAfterUpdate(frames, i, frames[i][name := slot], name);
      assert forall other :: other != name ==> Lookup(r, Named(other)) == Lookup(frames, Named(other)) by {
        forall other | other != name
          ensures Lookup(r, Named(other)) == Lookup(frames, Named(other))
        {
          LookupAfterUpdate(frames, i, name, slot, other);
        }
      }
      r
  }

  /** Entering a scope hides nothing: every lookup sees what it saw before. */
  lemma {:induction false} PushPreservesLookup(frames: seq<Frame>, b: Binding)
    ensures Lookup(frames + [map[]], b) == Lookup(frames, b)
  {
    if b.Named? {
      assert (frames + [map[]])[..|frames|] == frames;
    }
  }

  /** A name allocated in a pushed scope is gone once that scope is popped. */
  lemma ScopedAllocDiscarded(frames: seq<Frame>, name: string, slot: Slot)
    ensures var r := AllocF(frames + [map[]], name, slot); r[..|r| - 1] == frames
  {
  }

  /** The store the evaluator and the increment operators run against. */
  class ScopeManager {
    var frames: seq<Frame>

    /** There is always the global scope at the bottom. */
    predicate Valid()
      reads this
    {
      |frames| > 0
    }

    /** A manager holding only the empty global scope. */
    constructor ()
      ensures frames == [map[]]
      ensures Valid()
    {
      frames := [map[]];
    }

    method Alloc(name: string, slot: Slot)
      requires Valid()
      modifies this
      ensures frames == AllocF(old(frames), name, slot)
      ensures Valid()
    {
      var k := |frames| - 1;
      frames := frames[k := frames[k][name := slot]];
    }

    /** Searches the frames from the innermost outwards. */
    method Load(b: Binding) returns (r: Option<Slot>)
      ensures r == Lookup(frames, b)
    {
      if b.Anon? {
        return None;
      }
      var i := |frames|;
      while i > 0
        invariant 0 <= i <= |frames|
        invariant Innermost(frames, b.name) < i
        decreases i
      {
        if b.name in frames[i - 1] {
          return Some(frames[i - 1][b.name]);
        }
        i := i - 1;
      }
      return None;
    }

    method PushScope()
      modifies this
      ensures frames == old(frames) + [map[]]
      ensures Valid()
    {
      frames := frames + [map[]];
    }

    /** Drops the innermost scope; the global scope cannot be dropped, which is reported. */
    method PopScope() returns (ok: bool)
      modifies this
      ensures ok <==> |old(frames)| > 1
      ensures frames == if ok then old(frames)[..|old(frames)| - 1] else old(frames)
    {
      if |frames| > 1 {
        frames := frames[..|frames| - 1];
        ok := true;
      } else {
        ok := false;
      }
    }

    method GetType(name: string) returns (r: Option<JsType>)
      ensures r == Get(frames, name)
    {
      var slot := Load(Named(name));
      r := if slot.Some? then Some(slot.value.v.t) else None;
    }

    /** Stores a scalar under the name, as the variable of that name with no payload. */
    method Insert(name: string, t: JsType)
      requires Valid()
      modifies this
      ensures frames == InsertF(old(frames), name, Slot(JsVar(Named(name), t), None))
      ensures Valid()
    {
      var slot := Slot(JsVar(Named(name), t), None);
      var i := |frames|;
      while i > 0
        invariant 0 <= i <= |frames|
        invariant Innermost(frames, name) < i
        decreases i
      {
        if name in frames[i - 1] {
          assert Innermost(frames, name) == i - 1;
          frames := frames[i - 1 := frames[i - 1][name := slot]];
          return;
        }
        i := i - 1;
      }
      Alloc(name, slot);
    }
  }
}
