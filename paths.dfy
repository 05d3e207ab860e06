/**
 * The part of the platform's Path the renderer uses: a list of commands that is reset
 * and then appended to (moveTo, lineTo, cubicTo, close, addPath).
 */
module Paths {

  /** One path command. */
  datatype PathCmd =
    | MoveTo(x: real, y: real)
    | LineTo(x: real, y: real)
    | CubicTo(x1: real, y1: real, x2: real, y2: real, x: real, y: real)
    | Close

  /**
   * A value scaled by a factor: a y value by the animation phase, a distance by the
   * cubic intensity. Kept as a function so that scaled terms compare as terms.
   */
  function Scale(v: real, factor: real): real
  {
    v * factor
  }

  class Path {
    /** The commands appended since the last reset. */
    var cmds: seq<PathCmd>

    constructor ()
      ensures cmds == []
    {
      cmds := [];
    }

    method Reset()
      modifies this
      ensures cmds == []
    {
      cmds := [];
    }

    method MoveTo(x: real, y: real)
      modifies this
      ensures cmds == old(cmds) + [PathCmd.MoveTo(x, y)]
    {
      cmds := cmds + [PathCmd.MoveTo(x, y)];
    }

    method LineTo(x: real, y: real)
      modifies this
      ensures cmds == old(cmds) + [PathCmd.LineTo(x, y)]
    {
      cmds := cmds + [PathCmd.LineTo(x, y)];
    }

    /** cubicTo: a bezier segment with control points (x1, y1) and (x2, y2) ending at (x, y). */
    method CubicTo(x1: real, y1: real, x2: real, y2: real, x: real, y: real)
      modifies this
      ensures cmds == old(cmds) + [PathCmd.CubicTo(x1, y1, x2, y2, x, y)]
    {
      cmds := cmds + [PathCmd.CubicTo(x1, y1, x2, y2, x, y)];
    }

    /** addPath: appends the commands of another path. */
    method AddPath(other: Path)
      modifies this
      ensures cmds == old(cmds) + old(other.cmds)
    {
      cmds := cmds + other.cmds;
    }

    method Close()
      modifies this
      ensures cmds == old(cmds) + [PathCmd.Close]
    {
      cmds := cmds + [PathCmd.Close];
    }
  }
}
