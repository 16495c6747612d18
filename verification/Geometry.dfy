module Geometry {
  datatype Point = Point(x: int, y: int)

  datatype Rectangle = Rectangle(x: int, y: int, w: int, h: int)
  {
    predicate Covers(px: int, py: int) {
      x <= px < x + w && y <= py < y + h
    }
  }

  predicate Overlap(a: Rectangle, b: Rectangle) {
    && a.x < b.x + b.w && b.x < a.x + a.w
    && a.y < b.y + b.h && b.y < a.y + a.h
  }
}
