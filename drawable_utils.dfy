/**
 * `DrawableUtils`: the attribute-code decoding of tint modes (in its Java and Kotlin
 * versions) and the mutability test over a drawable tree.
 */
module DrawableUtils {
  import opened Wrappers

  /** The blend modes of `android.graphics.PorterDuff.Mode`. */
  datatype Mode =
    | Clear | Src | Dst | SrcOver | DstOver | SrcIn | DstIn | SrcOut | DstOut
    | SrcAtop | DstAtop | Xor | Darken | Lighten | Multiply | Screen | Add | Overlay

  /** The value a `tintMode` attribute uses for a mode, for the six modes the attribute can name. */
  function TintAttributeCode(m: Mode): Option<int>
  {
    match m
    case SrcOver => Some(3)
    case SrcIn => Some(5)
    case SrcAtop => Some(9)
    case Multiply => Some(14)
    case Screen => Some(15)
    case Add => Some(16)
    case _ => None
  }

  /**
   * The Java `parseTintMode`: decodes a `tintMode` attribute value; any other value yields
   * `defaultMode`, which Java callers may pass as null (`None`).
   */
  function ParseTintMode(value: int, defaultMode: Option<Mode>): (r: Option<Mode>)
    ensures value in {3, 5, 9, 14, 15, 16} ==> r.Some? && TintAttributeCode(r.value) == Some(value)
    ensures value !in {3, 5, 9, 14, 15, 16} ==> r == defaultMode
  {
    match value
    case 3 => Some(SrcOver)
    case 5 => Some(SrcIn)
    case 9 => Some(SrcAtop)
    case 14 => Some(Multiply)
    case 15 => Some(Screen)
    case 16 => Some(Add)
    case _ => defaultMode
  }

  /** The Kotlin `parseTintMode`: the same table with a non-null default, so it is total on modes. */
  function ParseTintModeKt(value: int, defaultMode: Mode): (r: Mode)
    ensures Some(r) == ParseTintMode(value, Some(defaultMode))
    ensures value !in {3, 5, 9, 14, 15, 16} ==> r == defaultMode
  {
    if value == 3 then SrcOver
    else if value == 5 then SrcIn
    else if value == 9 then SrcAtop
    else if value == 14 then Multiply
    else if value == 15 then Screen
    else if value == 16 then Add
    else defaultMode
  }

  /** Decoding inverts the attribute encoding, whatever the default. */
  lemma ParseTintModeInvertsCode(m: Mode, defaultMode: Option<Mode>)
    requires TintAttributeCode(m).Some?
    ensures ParseTintMode(TintAttributeCode(m).value, defaultMode) == Some(m)
  {
  }

  /** The six recognised codes decode to six distinct modes. */
  lemma ParseTintModeInjective(v1: int, v2: int, d1: Option<Mode>, d2: Option<Mode>)
    requires v1 in {3, 5, 9, 14, 15, 16} && v2 in {3, 5, 9, 14, 15, 16} && v1 != v2
    ensures ParseTintMode(v1, d1) != ParseTintMode(v2, d2)
  {
  }

  /**
   * A drawable as `canSafelyMutateDrawable` sees it. A container whose constant state is a
   * `DrawableContainerState` carries that state's child array; `StatelessContainer` is a
   * container whose constant state is anything else. Child slots and the drawable inside a
   * wrapper may be null (`None`).
   */
  datatype Drawable =
    | Container(children: seq<Option<Drawable>>)
    | StatelessContainer
    | Wrapper(inner: Option<Drawable>)
    | Scale(inner: Option<Drawable>)
    | Other

  /**
   * `canSafelyMutateDrawable`: a container is unsafe if some child is, a wrapper or scale
   * drawable is what its inner drawable is (`Objects.requireNonNull` throws on a null one),
   * and every other drawable is safe. A null child slot fails every `instanceof` test and
   * so counts as safe.
   */
  function CanSafelyMutateDrawable(d: Drawable): (r: Result<bool, JavaException>)
    ensures r != Success(false)
    ensures r.Failure? ==> r.error == NullPointerException
    ensures (d.Wrapper? || d.Scale?) && d.inner.None? ==> r == Failure(NullPointerException)
    ensures d.StatelessContainer? || d.Other? ==> r == Success(true)
    decreases d, 1
  {
    match d
    case Container(children) => AllChildrenSafe(d, children)
    case StatelessContainer => Success(true)
    case Wrapper(inner) =>
      if inner.None? then Failure(NullPointerException) else CanSafelyMutateDrawable(inner.value)
    case Scale(inner) =>
      if inner.None? then Failure(NullPointerException) else CanSafelyMutateDrawable(inner.value)
    case Other => Success(true)
  }

  /** The loop over a container's children: stops at the first unsafe child or exception. */
  function AllChildrenSafe(ghost parent: Drawable, children: seq<Option<Drawable>>): (r: Result<bool, JavaException>)
    requires forall i :: 0 <= i < |children| && children[i].Some? ==> children[i].value < parent
    ensures r != Success(false)
    ensures r.Failure? ==> r.error == NullPointerException
    ensures (forall i :: 0 <= i < |children| ==> children[i].None?) ==> r == Success(true)
    decreases parent, 0, |children|
  {
    if children == [] then Success(true)
    else
      var first := if children[0].None? then Success(true) else CanSafelyMutateDrawable(children[0].value);
      match first
      case Failure(e) => Failure(e)
      case Success(safe) => if !safe then Success(false) else AllChildrenSafe(parent, children[1..])
  }

  /** Whether the tree reaches a wrapper or scale drawable with no drawable inside. */
  predicate HasEmptyWrapper(d: Drawable)
    decreases d
  {
    match d
    case Container(children) =>
      exists i :: 0 <= i < |children| && children[i].Some? && HasEmptyWrapper(children[i].value)
    case StatelessContainer => false
    case Wrapper(inner) => inner.None? || HasEmptyWrapper(inner.value)
    case Scale(inner) => inner.None? || HasEmptyWrapper(inner.value)
    case Other => false
  }

  /**
   * Since no leaf is ever unsafe, the test never answers "unsafe": it answers "safe", or throws
   * exactly when some wrapper in the tree is empty.
   */
  lemma {:induction false} CanSafelyMutateCharacterized(d: Drawable)
    ensures CanSafelyMutateDrawable(d) ==
      if HasEmptyWrapper(d) then Failure(NullPointerException) else Success(true)
    decreases d, 1
  {
    match d
    case Container(children) =>
      AllChildrenSafeCharacterized(d, children);
    case StatelessContainer =>
    case Wrapper(inner) =>
      if inner.Some? { CanSafelyMutateCharacterized(inner.value); }
    case Scale(inner) =>
      if inner.Some? { CanSafelyMutateCharacterized(inner.value); }
    case Other =>
  }

  lemma {:induction false} AllChildrenSafeCharacterized(parent: Drawable, children: seq<Option<Drawable>>)
    requires forall i :: 0 <= i < |children| && children[i].Some? ==> children[i].value < parent
    ensures AllChildrenSafe(parent, children) ==
      if exists i :: 0 <= i < |children| && children[i].Some? && HasEmptyWrapper(children[i].value)
      then Failure(NullPointerException) else Success(true)
    decreases parent, 0, |children|
  {
    if children != [] {
      if children[0].Some? {
        CanSafelyMutateCharacterized(children[0].value);
      }
      AllChildrenSafeCharacterized(parent, children[1..]);
      if exists i :: 0 <= i < |children[1..]| && children[1..][i].Some? && HasEmptyWrapper(children[1..][i].value) {
        var i :| 0 <= i < |children[1..]| && children[1..][i].Some? && HasEmptyWrapper(children[1..][i].value);
        assert children[i + 1] == children[1..][i];
      }
      if exists i :: 0 <= i < |children| && children[i].Some? && HasEmptyWrapper(children[i].value) {
        var i :| 0 <= i < |children| && children[i].Some? && HasEmptyWrapper(children[i].value);
        if i > 0 { assert children[1..][i - 1] == children[i]; }
      }
    }
  }
}
