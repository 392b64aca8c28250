/** The toolhead marker of lib/three/Toolhead.ts: a mutable position cell, the size-dependent
    scale rule and the visibility flag. The three.js group is only a sink; the model keeps the
    two things the class writes to it: the rendered position (with Y and Z swapped) and the
    uniform scale. */
module ThreeToolhead {
  import opened Js
  import opened Constants

  /** The raw auto-scale of `scale` before clamping: a size-dependent factor, or
      `5 * log10(size)` from 5000 on. */
  function RawScale(lib: MathLib, objectSize: real): real {
    if objectSize < 100.0 then objectSize * 0.1
    else if objectSize < 500.0 then objectSize * 0.03
    else if objectSize < 5000.0 then objectSize * 0.01
    else Log10(lib, objectSize) * 5.0
  }

  /** The auto-scale `scale` stores: the raw value clamped to [0.5, 100]. */
  function AutoScaleFor(lib: MathLib, objectSize: real): (r: real)
    ensures 0.5 <= r <= 100.0
    ensures 0.5 <= RawScale(lib, objectSize) <= 100.0 ==> r == RawScale(lib, objectSize)
    ensures RawScale(lib, objectSize) < 0.5 ==> r == 0.5
    ensures 100.0 < RawScale(lib, objectSize) ==> r == 100.0
  {
    Min(Max(RawScale(lib, objectSize), 0.5), 100.0)
  }

  /** Below 5000 the clamp only acts under size 5: small objects get the floor 0.5, and each
      band is a plain multiple of the size. */
  lemma AutoScaleBands(lib: MathLib, objectSize: real)
    ensures objectSize < 5.0 ==> AutoScaleFor(lib, objectSize) == 0.5
    ensures 5.0 <= objectSize < 100.0 ==> AutoScaleFor(lib, objectSize) == objectSize * 0.1
    ensures 100.0 <= objectSize < 500.0 ==> AutoScaleFor(lib, objectSize) == objectSize * 0.03
    ensures 500.0 <= objectSize < 5000.0 ==> AutoScaleFor(lib, objectSize) == objectSize * 0.01
  {
  }

  /** The rule is not monotone in the size: the marker shrinks at each band boundary. */
  lemma AutoScaleDropsAtBands(lib: MathLib)
    ensures AutoScaleFor(lib, 99.0) == 9.9 && AutoScaleFor(lib, 100.0) == 3.0
    ensures AutoScaleFor(lib, 499.0) == 14.97 && AutoScaleFor(lib, 500.0) == 5.0
  {
    AutoScaleBands(lib, 99.0);
    AutoScaleBands(lib, 100.0);
    AutoScaleBands(lib, 499.0);
    AutoScaleBands(lib, 500.0);
  }

  /** Three.js coordinates of a G-code point: (x, z, y). */
  function Rendered(p: Point3D): (q: Point3D)
    ensures q.x == p.x && q.y == p.z && q.z == p.y
  {
    Point3D(p.x, p.z, p.y)
  }

  class Toolhead {
    var currentPosition: Point3D
    var sizeMultiplier: real
    var autoScale: real
    /** `group.visible`. */
    var visible: bool
    /** `group.position`, in three.js axes. */
    var groupPosition: Point3D
    /** `group.scale`, the same on all three axes. */
    var groupScale: real

    /** The group always shows the stored position with Y and Z swapped, at the auto-scale
        times the user's multiplier. */
    predicate Valid()
      reads this
    {
      groupPosition == Rendered(currentPosition) && groupScale == autoScale * sizeMultiplier
    }

    /** A new toolhead sits at the origin, visible, at scale 1 with multiplier 1. */
    constructor ()
      ensures Valid()
      ensures currentPosition == Point3D(0.0, 0.0, 0.0) && visible
      ensures sizeMultiplier == 1.0 && autoScale == 1.0 && groupScale == 1.0
    {
      currentPosition := Point3D(0.0, 0.0, 0.0);
      sizeMultiplier := 1.0;
      autoScale := 1.0;
      visible := true;
      groupPosition := Point3D(0.0, 0.0, 0.0);
      groupScale := 1.0;
    }

    /** `scale(objectSize)`: stores the clamped auto-scale and re-applies the scale. */
    method Scale(lib: MathLib, objectSize: real)
      requires Valid()
      modifies this
      ensures Valid()
      ensures autoScale == AutoScaleFor(lib, objectSize)
      ensures currentPosition == old(currentPosition) && groupPosition == old(groupPosition)
      ensures sizeMultiplier == old(sizeMultiplier) && visible == old(visible)
    {
      var a: real;
      if objectSize < 100.0 {
        a := objectSize * 0.1;
      } else if objectSize < 500.0 {
        a := objectSize * 0.03;
      } else if objectSize < 5000.0 {
        a := objectSize * 0.01;
      } else {
        a := Log10(lib, objectSize) * 5.0;
      }
      a := Max(a, 0.5);
      a := Min(a, 100.0);
      autoScale := a;
      ApplyScale();
    }

    /** `setSizeMultiplier`: stores the multiplier and re-applies the scale. */
    method SetSizeMultiplier(multiplier: real)
      requires Valid()
      modifies this
      ensures Valid()
      ensures sizeMultiplier == multiplier && groupScale == old(autoScale) * multiplier
      ensures currentPosition == old(currentPosition) && groupPosition == old(groupPosition)
      ensures autoScale == old(autoScale) && visible == old(visible)
    {
      sizeMultiplier := multiplier;
      ApplyScale();
    }

    /** `applyScale`: the group scale becomes auto-scale times multiplier. */
    method ApplyScale()
      modifies this
      ensures groupScale == autoScale * sizeMultiplier
      ensures currentPosition == old(currentPosition) && groupPosition == old(groupPosition)
      ensures autoScale == old(autoScale) && sizeMultiplier == old(sizeMultiplier) && visible == old(visible)
      ensures old(groupPosition == Rendered(currentPosition)) ==> Valid()
    {
      groupScale := autoScale * sizeMultiplier;
    }

    /** `autoHideForLargeObject`: hides a visible toolhead for objects larger than 500 and says
        whether it did; otherwise nothing changes. */
    method AutoHideForLargeObject(objectSize: real) returns (hidden: bool)
      modifies this
      ensures hidden <==> objectSize > ToolheadAutoHideSize && old(visible)
      ensures visible == (old(visible) && !hidden)
      ensures currentPosition == old(currentPosition) && groupPosition == old(groupPosition)
      ensures autoScale == old(autoScale) && sizeMultiplier == old(sizeMultiplier)
      ensures groupScale == old(groupScale)
    {
      if objectSize > ToolheadAutoHideSize && visible {
        visible := false;
        return true;
      }
      return false;
    }

    /** `setPosition(p)`: stores (p.x, p.y, p.z) and renders it as (x, z, y). */
    method SetPosition(p: ToolPosition)
      modifies this
      ensures currentPosition == Point3D(p.x, p.y, p.z)
      ensures groupPosition == Point3D(p.x, p.z, p.y)
      ensures autoScale == old(autoScale) && sizeMultiplier == old(sizeMultiplier)
      ensures visible == old(visible) && groupScale == old(groupScale)
      ensures old(Valid()) ==> Valid()
    {
      groupPosition := Point3D(p.x, p.z, p.y);
      currentPosition := Point3D(p.x, p.y, p.z);
    }

    /** `setPositionXYZ(x, y, z)`. */
    method SetPositionXYZ(x: real, y: real, z: real)
      modifies this
      ensures currentPosition == Point3D(x, y, z)
      ensures groupPosition == Point3D(x, z, y)
      ensures autoScale == old(autoScale) && sizeMultiplier == old(sizeMultiplier)
      ensures visible == old(visible) && groupScale == old(groupScale)
      ensures old(Valid()) ==> Valid()
    {
      groupPosition := Point3D(x, z, y);
      currentPosition := Point3D(x, y, z);
    }

    /** `getPosition`: the last stored position, in G-code axes. */
    method GetPosition() returns (p: Point3D)
      requires Valid()
      ensures p == currentPosition && Rendered(p) == groupPosition
    {
      p := currentPosition;
    }

    method SetVisible(v: bool)
      modifies this
      ensures visible == v
      ensures currentPosition == old(currentPosition) && groupPosition == old(groupPosition)
      ensures autoScale == old(autoScale) && sizeMultiplier == old(sizeMultiplier)
      ensures groupScale == old(groupScale)
    {
      visible := v;
    }

    method IsVisible() returns (v: bool)
      ensures v == visible
    {
      v := visible;
    }
  }

  /** Storing a position and reading it back gives exactly the coordinates stored, while the
      group receives them as (x, z, y); `setVisible` followed by `isVisible` likewise returns
      the flag. */
  method PositionRoundTrip(t: Toolhead, x: real, y: real, z: real, v: bool)
      returns (p: Point3D, shown: bool)
    requires t.Valid()
    modifies t
    ensures p == Point3D(x, y, z) && t.groupPosition == Point3D(x, z, y)
    ensures shown == v
  {
    t.SetPositionXYZ(x, y, z);
    p := t.GetPosition();
    t.SetVisible(v);
    shown := t.IsVisible();
  }
}
