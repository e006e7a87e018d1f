/** VertexObj: the per-vertex handle used while a mesh is dissolved. It
    remembers the offset of its owning object, the mesh it belongs to and the
    last position it reported, and raises a dirty flag when it is moved. */
module Vertex {
  import opened Engine

  /** The handle's own fields, as one value. */
  datatype HandleState = HandleState(init: bool, dirty: bool, index: int, prevPos: Vec3, offset: Vec3)

  /** A handle as the mesh sync sees it: its state and where it currently is. */
  datatype HandleView = HandleView(state: HandleState, position: Vec3)

  /** The field initialisers: not initialised, clean, index -1, zero vectors. */
  const FreshHandle: HandleState := HandleState(false, false, -1, Zero, Zero)

  /** Where a handle at `position` puts its vertex, given the owner's offset. */
  function Relative(position: Vec3, offset: Vec3): Vec3 {
    Sub(position, offset)
  }

  /** `Init(nOffset, nInd)` on a handle at `position`. */
  function Initialized(s: HandleState, position: Vec3, nOffset: Vec3, nInd: int): (r: HandleState)
    ensures r.init && r.offset == nOffset && r.index == nInd
    ensures r.dirty == s.dirty
    ensures r.prevPos == Relative(position, r.offset)
  {
    s.(init := true, offset := nOffset, index := nInd, prevPos := Sub(position, nOffset))
  }

  /** One `Update` of a handle at `position`. */
  function Updated(s: HandleState, position: Vec3): (r: HandleState)
    ensures !s.init ==> r == s
    ensures r.dirty <==> s.dirty || (s.init && Relative(position, s.offset) != s.prevPos)
    ensures s.init ==> r.prevPos == Relative(position, s.offset)
    ensures r.init == s.init && r.index == s.index && r.offset == s.offset
  {
    if s.init && Sub(position, s.offset) != s.prevPos then
      s.(dirty := true, prevPos := Sub(position, s.offset))
    else
      s
  }

  /** `Reset`: the dirty flag is cleared and nothing else changes. */
  function Cleared(s: HandleState): (r: HandleState)
    ensures !r.dirty
    ensures r.init == s.init && r.index == s.index && r.prevPos == s.prevPos && r.offset == s.offset
  {
    s.(dirty := false)
  }

  /** What the sprite renderer shows after `Select(isSelected)`; `None` is a
      handle without a sprite renderer, which `Select` leaves alone. */
  function Shown(sprRender: Option<Sprite>, isSelected: bool): (r: Option<Sprite>)
    ensures r.None? <==> sprRender.None?
    ensures r.Some? ==> (r.value == SelectedSprite <==> isSelected)
    ensures r.Some? ==> r.value != InitialSprite
  {
    match sprRender
    case None => None
    case Some(_) => Some(if isSelected then SelectedSprite else BaseSprite)
  }

  /** Only the last `Select` call decides what a handle shows. */
  lemma ShownLast(sprRender: Option<Sprite>, first: bool, second: bool)
    ensures Shown(Shown(sprRender, first), second) == Shown(sprRender, second)
  {
  }

  /** The handle's state after one `Update` per frame, the handle being at
      `frames[j]` in frame `j`. */
  function UpdatedOver(s: HandleState, frames: seq<Vec3>): (r: HandleState)
    ensures s.dirty ==> r.dirty
    ensures r.init == s.init && r.index == s.index && r.offset == s.offset
    decreases |frames|
  {
    if |frames| == 0 then s else UpdatedOver(Updated(s, frames[0]), frames[1..])
  }

  /** Before `Init` has run, `Update` changes nothing, however the handle moves. */
  lemma {:induction false} UpdateBeforeInit(frames: seq<Vec3>)
    ensures UpdatedOver(FreshHandle, frames) == FreshHandle
    decreases |frames|
  {
    if |frames| > 0 {
      UpdateBeforeInit(frames[1..]);
    }
  }

  /** A fresh handle that is initialised and then updated where it stands
      stays clean. */
  lemma InitThenStillUpdateIsClean(position: Vec3, nOffset: Vec3, nInd: int)
    ensures !Updated(Initialized(FreshHandle, position, nOffset, nInd), position).dirty
    ensures Updated(Initialized(FreshHandle, position, nOffset, nInd), position)
         == Initialized(FreshHandle, position, nOffset, nInd)
  {
  }

  /** Over a run of frames, an initialised handle ends up dirty exactly when
      it was dirty already or, in some frame, stood away from the rest
      position it had recorded at the start. */
  lemma {:induction false} DirtyOverFrames(s: HandleState, frames: seq<Vec3>)
    requires s.init
    ensures UpdatedOver(s, frames).dirty <==>
            s.dirty || exists j :: 0 <= j < |frames| && Relative(frames[j], s.offset) != s.prevPos
    decreases |frames|
  {
    if |frames| > 0 {
      var s1 := Updated(s, frames[0]);
      DirtyOverFrames(s1, frames[1..]);
      if Relative(frames[0], s.offset) == s.prevPos {
        assert s1 == s;
        forall j | 0 < j < |frames|
          ensures frames[j] == frames[1..][j - 1]
        {
        }
      } else {
        assert s1.dirty;
      }
    }
  }

  /** After at least one frame, an initialised handle's recorded position is
      the relative position of the last frame, whether or not it moved. */
  lemma {:induction false} PrevPosTracksLastFrame(s: HandleState, frames: seq<Vec3>)
    requires s.init && |frames| > 0
    ensures UpdatedOver(s, frames).prevPos == Relative(frames[|frames| - 1], s.offset)
    decreases |frames|
  {
    if |frames| > 1 {
      PrevPosTracksLastFrame(Updated(s, frames[0]), frames[1..]);
    }
  }

  /** The handle component. `transform` is the transform of the GameObject it
      is attached to; `sprRender` stands for its sprite renderer reference. */
  class VertexObj {
    const transform: Transform
    var sprRender: Option<Sprite>
    var init: bool
    var dirty: bool
    var index: int
    var prevPos: Vec3
    var offset: Vec3

    function State(): HandleState
      reads `init, `dirty, `index, `prevPos, `offset
    {
      HandleState(init, dirty, index, prevPos, offset)
    }

    function View(): HandleView
      reads this, transform
    {
      HandleView(State(), transform.position)
    }

    constructor (transform: Transform, sprRender: Option<Sprite>)
      ensures this.transform == transform && this.sprRender == sprRender
      ensures State() == FreshHandle
    {
      this.transform := transform;
      this.sprRender := sprRender;
      init := false;
      dirty := false;
      index := -1;
      prevPos := Zero;
      offset := Zero;
    }

    /** `OnEnable`: record the current position and, if no sprite renderer is
        referenced yet, take the one found on the object. */
    method OnEnable(rendererOnObject: Option<Sprite>)
      modifies `prevPos, `sprRender
      ensures prevPos == transform.position
      ensures sprRender == if old(sprRender).None? then rendererOnObject else old(sprRender)
    {
      prevPos := transform.position;
      if sprRender.None? {
        sprRender := rendererOnObject;
      }
    }

    method Select(isSelected: bool)
      modifies `sprRender
      ensures sprRender == Shown(old(sprRender), isSelected)
    {
      if sprRender.Some? {
        if isSelected {
          sprRender := Some(SelectedSprite);
        } else {
          sprRender := Some(BaseSprite);
        }
      }
    }

    method Init(nOffset: Vec3, nInd: int)
      modifies `init, `offset, `index, `prevPos
      ensures State() == Initialized(old(State()), transform.position, nOffset, nInd)
    {
      init := true;
      offset := nOffset;
      index := nInd;
      prevPos := Sub(transform.position, offset);
    }

    method Reset()
      modifies `dirty
      ensures State() == Cleared(old(State()))
    {
      dirty := false;
    }

    /** The per-frame `Update` callback, called explicitly. */
    method Update()
      modifies `dirty, `prevPos
      ensures State() == Updated(old(State()), transform.position)
    {
      if init {
        if Sub(transform.position, offset) != prevPos {
          dirty := true;
          prevPos := Sub(transform.position, offset);
        }
      }
    }
  }
}
