/**
 The window geometry behind `mouse_move_center_active_window`.
 */
module Window {

  /** A window's rectangle as the host reports it: a corner and a size. */
  datatype Rect = Rect(left: real, top: real, width: real, height: real)

  datatype Point = Point(x: real, y: real)

  /** The centre of `r`: as far from the left edge as from the right one,
      and from the top edge as from the bottom one, and inside the rectangle
      whenever its size is not negative. */
  function Center(r: Rect): (c: Point)
    ensures c.x - r.left == (r.left + r.width) - c.x
    ensures c.y - r.top == (r.top + r.height) - c.y
    ensures r.width >= 0.0 ==> r.left <= c.x <= r.left + r.width
    ensures r.height >= 0.0 ==> r.top <= c.y <= r.top + r.height
  {
    Point(r.left + r.width / 2.0, r.top + r.height / 2.0)
  }
}
