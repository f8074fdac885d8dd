/** What one clock edge of the orchestrator does, on values: it hands out pixels to the units and
  * draws the ones that are done.
  */
module OrchestratorModel {
  import opened Options
  import opened FixedPoint
  import opened Voxels
  import opened Traversal
  import opened VtuModel
  import opened Pipeline

  const FRAME_WIDTH: int := 160
  const FRAME_HEIGHT: int := 128
  const NUM_PIXELS: int := FRAME_WIDTH * FRAME_HEIGHT

  // The real constants of the original, in 8 fractional bits.
  const VIEWPORT_WIDTH: Fixed := 640
  const VIEWPORT_HEIGHT: Fixed := 512
  const PIXEL_SIZE: Fixed := 4
  const HALF_UNIT: Fixed := 128
  const AMBIENT: Fixed := 102
  const DIFFUSE: Fixed := 51
  const SUN := Vec3(0x100, -0x500, 0x200)

  // ----- colours -----

  type Byte = x: int | 0 <= x < 0x100
  type Rgb565 = x: int | 0 <= x < 0x10000

  function Rgb(r: Byte, g: Byte, b: Byte): Rgb565 { r / 8 * 0x800 + g / 4 * 0x20 + b / 8 }

  function Red(c: Rgb565): Byte { c / 0x800 * 8 }

  function Green(c: Rgb565): Byte { c / 0x20 % 0x40 * 4 }

  function Blue(c: Rgb565): Byte { c % 0x20 * 8 }

  /** One channel times the light, cut to 8 bits. */
  function Lit(channel: Byte, light: Fixed): Byte { Floor(Mul(FromInt(channel), light)) % 0x100 }

  function Dimmed(c: Rgb565, light: Fixed): Rgb565 {
    Rgb(Lit(Red(c), light), Lit(Green(c), light), Lit(Blue(c), light))
  }

  function BaseColour(voxel: Block): Rgb565 {
    match voxel
    case Air => Rgb(174, 200, 235)
    case Water => Rgb(52, 67, 138)
    case Grass => Rgb(90, 133, 77)
    case Dirt => Rgb(133, 96, 77)
    case OakLog => Rgb(91, 58, 42)
    case OakLeaves => Rgb(129, 165, 118)
    case _ => Rgb(82, 70, 84)
  }

  /** The colour of a pixel whose ray met this block; the sky is not lit. */
  function Shade(tab: Tables, voxel: Block, normal: Vec3): Rgb565 {
    if voxel == Air then BaseColour(voxel)
    else Dimmed(BaseColour(voxel), Add(AMBIENT, Mul(DIFFUSE, normal.Dot(SUN.Normalized(tab)))))
  }

  /** A colour with the channels of these numbers, cut to 5, 6 and 5 bits. */
  ghost predicate HasChannels(c: Rgb565, r: Byte, g: Byte, b: Byte) {
    Red(c) == r - r % 8 && Green(c) == g - g % 4 && Blue(c) == b - b % 8
  }

  lemma FieldsOf(n: nat, high: nat, middle: nat, low: nat)
    requires middle < 0x40 && low < 0x20 && n == high * 0x800 + middle * 0x20 + low
    ensures n / 0x800 == high && n / 0x20 % 0x40 == middle && n % 0x20 == low
  {
    assert n / 0x20 == high * 0x40 + middle;
  }

  lemma ChannelsAreKept(r: Byte, g: Byte, b: Byte)
    ensures HasChannels(Rgb(r, g, b), r, g, b)
  {
    FieldsOf(Rgb(r, g, b), r / 8, g / 4, b / 8);
    assert r / 8 * 8 == r - r % 8 && g / 4 * 4 == g - g % 4 && b / 8 * 8 == b - b % 8;
  }

  /** The colours of the blocks. */
  lemma Palette(voxel: Block)
    ensures match voxel
      case Air => HasChannels(BaseColour(voxel), 174, 200, 235)
      case Water => HasChannels(BaseColour(voxel), 52, 67, 138)
      case Grass => HasChannels(BaseColour(voxel), 90, 133, 77)
      case Dirt => HasChannels(BaseColour(voxel), 133, 96, 77)
      case OakLog => HasChannels(BaseColour(voxel), 91, 58, 42)
      case OakLeaves => HasChannels(BaseColour(voxel), 129, 165, 118)
      case _ => HasChannels(BaseColour(voxel), 82, 70, 84)
  {
    match voxel
    case Air => ChannelsAreKept(174, 200, 235);
    case Water => ChannelsAreKept(52, 67, 138);
    case Grass => ChannelsAreKept(90, 133, 77);
    case Dirt => ChannelsAreKept(133, 96, 77);
    case OakLog => ChannelsAreKept(91, 58, 42);
    case OakLeaves => ChannelsAreKept(129, 165, 118);
    case _ => ChannelsAreKept(82, 70, 84);
  }

  /** A channel times the light, rounded down and cut to 8 bits: the wrapping in between is not seen. */
  lemma LitIsProduct(channel: Byte, light: Fixed)
    ensures Lit(channel, light) == light * channel / 0x100 % 0x100
  {
    MulByWhole(light, channel);
    FloorOfWrapped(light * channel);
  }

  /** The light on a face against which the sun shines by this much. */
  function LightOn(shine: Fixed): Fixed { Wrap(102 + 51 * shine / 0x100) }

  lemma LightIs(shine: Fixed)
    ensures Add(AMBIENT, Mul(DIFFUSE, shine)) == LightOn(shine)
  {
    WrapLater(102, 51 * shine / 0x100);
  }

  lemma ShineAlong(step: I16, sun: Fixed)
    requires step == 1 || step == -1
    ensures Mul(-0x100 * step, sun) == Wrap(0 - step * sun)
  {
    if step == 1 {
      assert (-0x100 * sun) / 0x100 == 0 - sun;
    } else {
      assert (0x100 * sun) / 0x100 == sun;
    }
  }

  lemma OneTerm(a: Fixed)
    ensures Add(Add(a, 0), 0) == a && Add(Add(0, a), 0) == a && Add(Add(0, 0), a) == a
  {
    ZeroIsNeutral(a);
    ZeroIsNeutral(0);
  }

  lemma DotAlongX(n: Fixed, v: Vec3)
    ensures Vec3(n, 0, 0).Dot(v) == Mul(n, v.x)
  {
    ZeroIsNeutral(v.y);
    ZeroIsNeutral(v.z);
    OneTerm(Mul(n, v.x));
  }

  lemma DotAlongY(n: Fixed, v: Vec3)
    ensures Vec3(0, n, 0).Dot(v) == Mul(n, v.y)
  {
    ZeroIsNeutral(v.x);
    ZeroIsNeutral(v.z);
    OneTerm(Mul(n, v.y));
  }

  lemma DotAlongZ(n: Fixed, v: Vec3)
    ensures Vec3(0, 0, n).Dot(v) == Mul(n, v.z)
  {
    ZeroIsNeutral(v.x);
    ZeroIsNeutral(v.y);
    OneTerm(Mul(n, v.z));
  }

  /** The colour of a block on whose face the sun shines by this much. */
  function LitColour(voxel: Block, shine: Fixed): Rgb565 { Dimmed(BaseColour(voxel), LightOn(shine)) }

  lemma ShadeIs(tab: Tables, voxel: Block, normal: Vec3, shine: Fixed)
    requires voxel != Air && shine == normal.Dot(SUN.Normalized(tab))
    ensures Shade(tab, voxel, normal) == LitColour(voxel, shine)
  {
    LightIs(shine);
  }

  lemma NormalDot(ray: Ray, axis: Axis, v: Vec3)
    requires Unit(ray)
    ensures NormalOf(ray, axis).Dot(v) == if RealAxis(axis) then Mul(-0x100 * OnI(ray.step, axis), On(v, axis)) else 0
  {
    NormalFacesRay(ray);
    match axis
    case AxisX => DotAlongX(-0x100 * ray.step.x, v);
    case AxisY => DotAlongY(-0x100 * ray.step.y, v);
    case AxisZ => DotAlongZ(-0x100 * ray.step.z, v);
    case NoAxis => DotAlongX(0, v); ZeroIsNeutral(v.x);
  }

  /** A hit is lit by 0.4, and by 0.2 times the part of the sun's direction that is against the step
    * across the face that was hit, in 8 fractional bits; the sky is not lit.
    */
  lemma FacesAreLit(tab: Tables, ray: Ray, voxel: Block, axis: Axis, sun: Vec3, shine: Fixed)
    requires Unit(ray) && sun == Vec3(0x100, -0x500, 0x200).Normalized(tab)
    requires shine == if RealAxis(axis) then Wrap(0 - OnI(ray.step, axis) * On(sun, axis)) else 0
    ensures Shade(tab, voxel, NormalOf(ray, axis)) == if voxel == Air then BaseColour(Air) else LitColour(voxel, shine)
  {
    NormalDot(ray, axis, sun);
    if RealAxis(axis) { ShineAlong(OnI(ray.step, axis), On(sun, axis)); }
    if voxel != Air { ShadeIs(tab, voxel, NormalOf(ray, axis), shine); }
  }

  // ----- the camera of a frame -----

  /** What is latched when a frame starts. */
  datatype View = View(pos: Vec3, pixel0: Vec3, du: Vec3, dv: Vec3)

  function Latch(tab: Tables, pos: Vec3, heading: Vec3): View {
    var w := heading.Normalized(tab);
    var u := UP.Cross(w).Normalized(tab);
    var v := w.Cross(u);
    var span := u.Scale(VIEWPORT_WIDTH).Plus(v.Negated().Scale(VIEWPORT_HEIGHT));
    var du, dv := u.Scale(PIXEL_SIZE), v.Negated().Scale(PIXEL_SIZE);
    var corner := pos.Minus(w.Scale(ONE)).Minus(span.Scale(HALF_UNIT));
    View(pos, corner.Plus(du.Plus(dv).Scale(HALF_UNIT)), du, dv)
  }

  /** The direction of the ray through a pixel; the number one past the last pixel has one too. */
  function RayOf(view: View, pixel: nat): Vec3
    requires pixel <= NUM_PIXELS
  {
    view.pixel0.Plus(view.du.Scale(FromInt(pixel % FRAME_WIDTH))).Plus(view.dv.Scale(FromInt(pixel / FRAME_WIDTH)))
      .Minus(view.pos)
  }

  /** One component of the direction from the camera to a pixel: from the first one so many steps to
    * the right and so many down. What does not fit is wrapped once, at the end.
    */
  function Towards(pixel0: Fixed, du: Fixed, dv: Fixed, pos: Fixed, row: nat, column: nat): Fixed {
    Wrap(pixel0 + du * column + dv * row - pos)
  }

  function DirectionTo(view: View, row: nat, column: nat): Vec3 {
    Vec3(Towards(view.pixel0.x, view.du.x, view.dv.x, view.pos.x, row, column),
         Towards(view.pixel0.y, view.du.y, view.dv.y, view.pos.y, row, column),
         Towards(view.pixel0.z, view.du.z, view.dv.z, view.pos.z, row, column))
  }

  lemma CornerWraps(p: Fixed, a: Fixed, b: Fixed, c: Fixed)
    ensures Add(Sub(Sub(p, a), b), c) == Wrap(p - a - b + c)
  {
    Fits(p);
    Fits(a);
    Fits(b);
    Fits(c);
    FourDifferences(p, a, b, c);
  }

  /** The first pixel, from half of the vector across the viewport and half of the one across a pixel. */
  lemma CornerOf(pos: Vec3, w: Vec3, span: Vec3, delta: Vec3)
    ensures pos.Minus(w).Minus(span).Plus(delta)
         == Vec3(Wrap(pos.x - w.x - span.x + delta.x), Wrap(pos.y - w.y - span.y + delta.y),
                 Wrap(pos.z - w.z - span.z + delta.z))
  {
    CornerWraps(pos.x, w.x, span.x, delta.x);
    CornerWraps(pos.y, w.y, span.y, delta.y);
    CornerWraps(pos.z, w.z, span.z, delta.z);
  }

  /** What is latched, for any heading: a basis is made of it, and the viewport, 2.5 wide and 2 high, is
    * at distance 1 against the heading, its first pixel at the upper left.
    */
  lemma LatchIs(tab: Tables, pos: Vec3, heading: Vec3, w: Vec3, u: Vec3, v: Vec3, span: Vec3, delta: Vec3)
    requires w == heading.Normalized(tab) && u == UP.Cross(w).Normalized(tab) && v == w.Cross(u)
    requires span == u.Scale(640).Plus(v.Negated().Scale(512)).Scale(128)
    requires delta == u.Scale(4).Plus(v.Negated().Scale(4)).Scale(128)
    ensures var view := Latch(tab, pos, heading);
      && view.pos == pos && view.du == u.Scale(4) && view.dv == v.Negated().Scale(4)
      && view.pixel0 == Vec3(Wrap(pos.x - w.x - span.x + delta.x), Wrap(pos.y - w.y - span.y + delta.y),
                             Wrap(pos.z - w.z - span.z + delta.z))
  {
    ScaleByOne(w);
    CornerOf(pos, w, span, delta);
  }

  lemma StepsWrapOnce(pixel0: Fixed, du: Fixed, dv: Fixed, pos: Fixed, row: nat, column: nat)
    requires row <= FRAME_HEIGHT && column < FRAME_WIDTH
    ensures Sub(Add(Add(pixel0, Mul(du, FromInt(column))), Mul(dv, FromInt(row))), pos)
         == Towards(pixel0, du, dv, pos, row, column)
  {
    MulByWhole(du, column);
    MulByWhole(dv, row);
    Fits(pixel0);
    Fits(pos);
    FourTerms(pixel0, du * column, dv * row, pos);
  }

  /** The ray of each pixel, 160 of which are in a row. The number one past the last pixel is that of a
    * row below the frame.
    */
  lemma PixelsAreInRows(view: View, pixel: nat, row: nat, column: nat)
    requires pixel <= NUM_PIXELS && row == pixel / 160 && column == pixel % 160
    ensures RayOf(view, pixel) == DirectionTo(view, row, column)
  {
    StepsWrapOnce(view.pixel0.x, view.du.x, view.dv.x, view.pos.x, row, column);
    StepsWrapOnce(view.pixel0.y, view.du.y, view.dv.y, view.pos.y, row, column);
    StepsWrapOnce(view.pixel0.z, view.du.z, view.dv.z, view.pos.z, row, column);
  }

  lemma RowAndColumn(row: nat, column: nat)
    requires column < 160
    ensures (row * 160 + column) / 160 == row && (row * 160 + column) % 160 == column
  {
  }

  lemma FirstPixelRay(view: View)
    ensures RayOf(view, 0) == view.pixel0.Minus(view.pos)
  {
    PixelsAreInRows(view, 0, 0, 0);
  }

  // ----- one clock edge -----

  /** The machine, with the pixels drawn since the start of the frame, in order. */
  datatype Orch = Orch(pipe: Pipe, view: View, next: nat, done: bool, frame: seq<Rgb565>, drawn: seq<nat>)

  /** The pixel counter and the pixels of the units are such that a draw is within the frame. */
  ghost predicate InRange(o: Orch) {
    && o.pipe.Shaped() && |o.frame| == NUM_PIXELS && o.next <= NUM_PIXELS
    && (o.next < NUM_PIXELS ==> forall i :: 0 <= i < |o.pipe.units| ==> o.pipe.units[i].pixel < NUM_PIXELS)
  }

  /** The unit with the highest priority among those that are done. */
  function FirstDone(units: seq<Vtu>): (r: Option<nat>)
    ensures match r
      case Some(i) => i < |units| && units[i].valid && forall j :: 0 <= j < i ==> !units[j].valid
      case None => forall j :: 0 <= j < |units| ==> !units[j].valid
  {
    if units == [] then None
    else if units[0].valid then Some(0)
    else
      match FirstDone(units[1..])
      case Some(i) =>
        assert forall j :: 1 <= j < |units| ==> units[j] == units[1..][j - 1];
        Some(i + 1)
      case None =>
        assert forall j :: 1 <= j < |units| ==> units[j] == units[1..][j - 1];
        None
  }

  // The orchestrator's own registers; in these functions `o.pipe` has already been clocked.

  function Blank(o: Orch): Orch {
    Orch(o.pipe, View(ORIGIN, ORIGIN, ORIGIN, ORIGIN), NUM_PIXELS, false, seq(|o.frame|, _ => 0), [])
  }

  function StartFrame(o: Orch, view: View): Orch {
    var units := o.pipe.units;
    o.(pipe := o.pipe.(units := seq(|units|, i requires 0 <= i < |units| =>
         units[i].(origin := view.pos, direction := view.pixel0.Minus(view.pos), init := true, pixel := 0))),
       view := view, next := 0, done := false, drawn := [])
  }

  /** No start requested from any unit. */
  function Quiet(pipe: Pipe): (r: Pipe)
    ensures |r.units| == |pipe.units| && r.l2 == pipe.l2 && r.l3 == pipe.l3
  {
    pipe.(units := seq(|pipe.units|, i requires 0 <= i < |pipe.units| => pipe.units[i].(init := false)))
  }

  /** Draws the pixel of a unit that is done and starts the unit on the next one. */
  function Draw(tab: Tables, o: Orch, i: nat): Orch
    requires o.next < NUM_PIXELS && |o.frame| == NUM_PIXELS
    requires i < |o.pipe.units| && o.pipe.units[i].pixel < NUM_PIXELS
  {
    var v := o.pipe.units[i];
    o.(pipe := o.pipe.(units := o.pipe.units[i := v.(origin := o.view.pos, direction := RayOf(o.view, o.next + 1),
                                                     init := true, pixel := o.next + 1)]),
       next := o.next + 1, frame := o.frame[v.pixel := Shade(tab, v.voxel, v.normal)], drawn := o.drawn + [v.pixel])
  }

  /** The unit that is started after a draw gets the direction of its pixel. */
  lemma DrawHandsOut(tab: Tables, o: Orch, i: nat, row: nat, column: nat)
    requires o.next < NUM_PIXELS && |o.frame| == NUM_PIXELS
    requires i < |o.pipe.units| && o.pipe.units[i].pixel < NUM_PIXELS
    requires row < 128 && column < 160 && o.next + 1 == row * 160 + column
    ensures var r := Draw(tab, o, i);
      var v := r.pipe.units[i];
      && v.init && v.pixel == r.next == row * 160 + column
      && v.origin == o.view.pos && v.direction == DirectionTo(o.view, row, column)
      && (forall j :: 0 <= j < |o.pipe.units| && j != i ==> r.pipe.units[j] == o.pipe.units[j])
      && r.frame == o.frame[o.pipe.units[i].pixel := Shade(tab, o.pipe.units[i].voxel, o.pipe.units[i].normal)]
  {
    RowAndColumn(row, column);
    PixelsAreInRows(o.view, o.next + 1, row, column);
  }

  /** Services at most one unit in a cycle. */
  function DrawFirstDone(tab: Tables, o: Orch): (r: Orch)
    requires InRange(o) && o.next < NUM_PIXELS
    ensures InRange(r) && |r.pipe.units| == |o.pipe.units|
  {
    var o' := o.(done := o.next == NUM_PIXELS - 1);
    match FirstDone(o.pipe.units)
    case Some(i) => Draw(tab, o', i)
    case None => o'
  }

  function Registers(tab: Tables, o: Orch, pos: Vec3, heading: Vec3, reset: bool): (r: Orch)
    requires InRange(o)
    ensures InRange(r) && |r.pipe.units| == |o.pipe.units|
  {
    if reset then Blank(o)
    else if o.next == NUM_PIXELS then StartFrame(o, Latch(tab, pos, heading))
    else DrawFirstDone(tab, o.(pipe := Quiet(o.pipe)))
  }

  /** After the clock edges of the caches and the units. */
  function Clocked(tab: Tables, chunk: Chunk, o: Orch, reset: bool): (r: Orch)
    requires InRange(o)
    ensures InRange(r) && |r.pipe.units| == |o.pipe.units|
  {
    var r := o.(pipe := Cycle(tab, chunk, o.pipe, reset));
    assert forall i :: 0 <= i < |r.pipe.units| ==> r.pipe.units[i].pixel == o.pipe.units[i].pixel;
    r
  }

  /** One edge: the caches and the units first, then the orchestrator's own registers. */
  function Step(tab: Tables, chunk: Chunk, o: Orch, pos: Vec3, heading: Vec3, reset: bool): (r: Orch)
    requires InRange(o)
    ensures InRange(r) && |r.pipe.units| == |o.pipe.units|
  {
    Registers(tab, Clocked(tab, chunk, o, reset), pos, heading, reset)
  }
}
