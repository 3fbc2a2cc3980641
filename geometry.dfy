/** Two-dimensional vectors over the reals, standing in for XNA's `Vector2`,
    the usual `Option` wrapper for the source's nullable references, and one
    fact about sequences that the loops appending to lists rely on. */
module Geometry {

  datatype Option<+T> = None | Some(value: T)

  datatype Vec2 = Vec2(x: real, y: real)
  {
    function Plus(other: Vec2): Vec2 { Vec2(x + other.x, y + other.y) }

    function Minus(other: Vec2): Vec2 { Vec2(x - other.x, y - other.y) }

    function Times(k: real): Vec2 { Vec2(x * k, y * k) }

    /** `Vector2.LengthSquared()`: the length itself needs a square root,
        which the model avoids. */
    function LengthSquared(): real { x * x + y * y }
  }

  const Zero: Vec2 := Vec2(0.0, 0.0)

  /** `pre * (1 - alpha) + post * alpha`, the component-wise linear blend. */
  function Lerp(pre: Vec2, post: Vec2, alpha: real): Vec2
  {
    pre.Times(1.0 - alpha).Plus(post.Times(alpha))
  }

  function LerpReal(pre: real, post: real, alpha: real): real
  {
    pre * (1.0 - alpha) + post * alpha
  }

  /** Scaling a vector by k scales its squared length by k squared. */
  lemma ScaledLengthSquared(v: Vec2, k: real)
    ensures v.Times(k).LengthSquared() == k * k * v.LengthSquared()
  {
    calc {
      v.Times(k).LengthSquared();
      (v.x * k) * (v.x * k) + (v.y * k) * (v.y * k);
      k * k * (v.x * v.x) + k * k * (v.y * v.y);
      k * k * v.LengthSquared();
    }
  }

  /** Stated once so that loops appending to a list need not re-derive it. */
  lemma AppendAssociates<T>(a: seq<T>, b: seq<T>, c: seq<T>)
    ensures (a + b) + c == a + (b + c)
  {
  }
}
