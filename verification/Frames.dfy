// Frames as the transport sees them, and the pixel they present.
module Frames {
  // The sources are src/core/include/hyremote/core/frame.hpp and rfbOpaqueChannel of
  // src/runtime/src/transport/rfb_pixel_policy.hpp, which the damage comparison and the
  // encoders share.

  import opened Option
  import opened RfbRegion

  type Byte = b: int | 0 <= b < 256

  datatype Rgb = Rgb(r: Byte, g: Byte, b: Byte)

  datatype AlphaMode = Opaque | Straight | Premultiplied

  datatype PixelFormat = UnknownFormat | Bgra8888 | Rgba8888 | Bgrx8888 | Rgbx8888

  // What mapRead(0) returns: the bytes of the plane and its row stride.
  datatype Plane = Plane(data: seq<Byte>, stride: nat)

  // Frame storage is immutable while it is shared: the anchor stands for the storage
  // object, and one anchor always maps to the same bytes.
  datatype Storage = Storage(anchor: nat, plane: Option<Plane>)

  datatype DamageHint = UnknownDamage | FullFrame | Regions(rects: seq<Rect>)

  datatype Frame = Frame(id: nat, width: nat, height: nat, format: PixelFormat, planeCount: nat,
                         alpha: AlphaMode, storage: Option<Storage>, damage: DamageHint)

  // RFB has no alpha channel: straight RGB is composited on black.
  function OpaqueChannel(channel: Byte, alpha: Byte, mode: AlphaMode): (c: Byte)
    ensures c <= channel
    ensures mode != Straight || alpha == 255 ==> c == channel
    ensures mode == Straight && alpha == 0 ==> c == 0
    ensures mode == Straight ==> -127 <= 255 * c - channel * alpha <= 127
  {
    if mode == Straight then
      (channel * alpha + 127) / 255
    else channel
  }

  predicate InFrame(f: Frame, x: int, y: int) {
    0 <= x < f.width && 0 <= y < f.height
  }

  // The plane can be read as f.width by f.height pixels of four bytes.
  predicate Readable(f: Frame) {
    && f.format == Rgba8888
    && f.storage.Some? && f.storage.value.plane.Some?
    && var p := f.storage.value.plane.value;
       p.stride >= f.width * 4 && |p.data| >= p.stride * f.height
  }

  function PlaneOf(f: Frame): Plane
    requires Readable(f)
  {
    f.storage.value.plane.value
  }

  function Offset(f: Frame, x: nat, y: nat): (o: nat)
    requires Readable(f) && InFrame(f, x, y)
    ensures o + 3 < |PlaneOf(f).data|
  {
    OffsetFits(PlaneOf(f).stride, f.width, f.height, |PlaneOf(f).data|, x, y);
    y * PlaneOf(f).stride + x * 4
  }

  lemma {:induction false} OffsetFits(stride: nat, width: nat, height: nat, bytes: nat, x: nat, y: nat)
    requires stride >= width * 4 && bytes >= stride * height && x < width && y < height
    ensures y * stride + x * 4 + 3 < bytes
  {
    assert (y + 1) * stride <= height * stride;
    assert (y + 1) * stride == y * stride + stride;
  }

  function PixelOfBytes(data: seq<Byte>, o: nat, mode: AlphaMode): Rgb
    requires o + 3 < |data|
  {
    Rgb(OpaqueChannel(data[o], data[o + 3], mode),
        OpaqueChannel(data[o + 1], data[o + 3], mode),
        OpaqueChannel(data[o + 2], data[o + 3], mode))
  }

  function PixelAt(f: Frame, x: nat, y: nat): Rgb
    requires Readable(f) && InFrame(f, x, y)
  {
    PixelOfBytes(PlaneOf(f).data, Offset(f, x, y), f.alpha)
  }

  // The picture a frame presents: no pixel where nothing can be read.
  function Shown(f: Frame, x: int, y: int): Option<Rgb> {
    if Readable(f) && InFrame(f, x, y) then Some(PixelAt(f, x, y)) else None
  }

  // width * rows, counted row by row so that products of variables stay out of the proofs.
  function Cells(width: nat, rows: nat): nat {
    if rows == 0 then 0 else width + Cells(width, rows - 1)
  }

  lemma {:induction false} GridIndex(width: nat, height: nat, col: nat, row: nat)
    requires col < width && row < height
    ensures Cells(width, row) + col < Cells(width, height)
    decreases height
  {
    if row < height - 1 {
      GridIndex(width, height - 1, col, row);
    }
  }

  lemma {:induction false} CellsIsProduct(width: nat, rows: nat)
    ensures Cells(width, rows) == width * rows
    decreases rows
  {
    if rows > 0 {
      CellsIsProduct(width, rows - 1);
      assert width * rows == width * (rows - 1) + width;
    }
  }

  lemma {:induction false} CellsMonotone(a: nat, b: nat, width: nat, rows: nat)
    requires a <= width && b <= rows
    ensures Cells(a, b) <= Cells(width, rows)
    decreases rows
  {
    if b < rows {
      CellsMonotone(a, b, width, rows - 1);
    } else if b > 0 {
      CellsMonotone(a, b - 1, width, rows - 1);
    }
  }
}
