/**
 Sizes and positions of the partitions appended after the live ISO on the USB media, computed in
 64-bit arithmetic.
 */
module MediaLayout {
  import opened Prelude

  const MAX: int := 0x7FFF_FFFF_FFFF_FFFF
  const MIB: int := 0x10_0000
  const SECTOR: int := 512
  const P2_MIN: int := 0x2_0000_0000
  const P3_SIZE: int := 0x1000_0000
  const P4_SIZE: int := 0x400_0000
  const METADATA: int := 0x1000_0000
  const SLACK: int := 0x400_0000
  const EXT_SLACK: int := 0x100_0000

  // ----- int64 -----

  function Wrap(x: int): (r: int)
    ensures -MAX - 1 <= r <= MAX && (-MAX - 1 <= x <= MAX ==> r == x)
  {
    (x + MAX + 1) % (2 * (MAX + 1)) - MAX - 1
  }

  // Division of int64 values truncates towards zero.
  function Quotient(a: int, b: int): int
    requires b > 0
  {
    if a >= 0 then a / b else -(-a / b)
  }

  // alignUpToMiB
  function AlignUp(v: int): int {
    Wrap(Quotient(Wrap(Wrap(v + MIB) - 1), MIB) * MIB)
  }

  lemma AlignUpIsNextMiB(v: int)
    requires 0 <= v <= MAX - MIB
    ensures v <= AlignUp(v) < v + MIB && AlignUp(v) % MIB == 0
  {
    var q := (v + MIB - 1) / MIB;
    assert q * MIB <= v + MIB - 1 < q * MIB + MIB;
    assert (q * MIB) % MIB == 0;
  }

  // sizeIBIImagesPartition
  function ImagesSize(payload: int): int {
    var sized := AlignUp(Wrap(Quotient(Wrap(payload * 110), 100) + METADATA));
    if sized < P2_MIN then P2_MIN else sized
  }

  lemma SizeWithoutOverflow(payload: int)
    requires 0 <= payload && payload * 110 <= MAX
    ensures ImagesSize(payload) >= payload + payload / 10 + METADATA
    ensures ImagesSize(payload) % MIB == 0
  {
    var scaled := payload * 110 / 100;
    assert Quotient(Wrap(payload * 110), 100) == scaled >= payload + payload / 10;
    AlignUpIsNextMiB(scaled + METADATA);
  }

  lemma SizeWithOverflow(payload: int)
    requires payload <= MAX < payload * 110
    ensures ImagesSize(payload) < payload + payload / 10 + METADATA
  {
    var scaled := Quotient(Wrap(payload * 110), 100);
    assert -MAX / 100 - 1 <= scaled <= MAX / 100;
    if scaled + METADATA >= 0 {
      AlignUpIsNextMiB(scaled + METADATA);
      assert payload + payload / 10 >= payload * 110 / 100 - 1;
      if payload * 110 < 2 * (MAX + 1) {
        assert Wrap(payload * 110) == payload * 110 - 2 * (MAX + 1) < 0;
        assert scaled <= 0;
      }
    } else {
      NegativeAlignUp(scaled + METADATA);
    }
  }

  // The partition holds the payload, ten percent more, and the filesystem's own 256 MiB exactly
  // when the scaled payload does not overflow; an overflow would size it too small.
  lemma ImagesSizeHolds(payload: int)
    requires 0 <= payload <= MAX
    ensures ImagesSize(payload) >= payload + payload / 10 + METADATA <==> payload * 110 <= MAX
    ensures ImagesSize(payload) >= P2_MIN
  {
    if payload * 110 <= MAX { SizeWithoutOverflow(payload); } else { SizeWithOverflow(payload); }
  }

  lemma NegativeAlignUp(v: int)
    requires -MAX - 1 <= v < 0
    ensures AlignUp(v) <= MIB
  {
    var w := v + MIB - 1;
    if w >= 0 {
      assert w / MIB == 0;
    } else {
      var q := -w / MIB;
      assert q >= 0 && q * MIB <= -w;
    }
  }

  // It is the smallest whole MiB that holds them, and at least 8 GiB.
  lemma ImagesSizeIsLeast(payload: int)
    requires 0 <= payload && payload * 110 <= MAX
    ensures var needed := payload * 110 / 100 + METADATA;
            var size := ImagesSize(payload);
            && size % MIB == 0 && size >= needed && size >= 8 * 1024 * MIB
            && forall v | v % MIB == 0 && v >= needed && v >= 8 * 1024 * MIB :: size <= v
  {
    var needed := payload * 110 / 100 + METADATA;
    assert Wrap(payload * 110) == payload * 110 && Quotient(payload * 110, 100) + METADATA == needed;
    AlignUpIsNextMiB(needed);
    forall v | v % MIB == 0 && v >= needed ensures AlignUp(needed) <= v { LeastMiB(needed, AlignUp(needed), v); }
  }

  lemma LeastMiB(v: int, a: int, w: int)
    requires a < v + MIB && v <= w && a % MIB == 0 && w % MIB == 0
    ensures a <= w
  {}

  // ----- the plan -----

  datatype Mode = InstallOnly | SelfContained

  datatype Label = Images | ClusterConfig | Status

  datatype Planned = Planned(part: Label, size: int)

  // partitionPlan
  function PartitionPlan(mode: Mode): seq<Planned> {
    [Planned(Images, P2_MIN)] +
    (if mode.SelfContained? then [Planned(ClusterConfig, P3_SIZE)] else []) +
    [Planned(Status, P4_SIZE)]
  }

  // The plan with the given size for its first ibi-images partition, wherever that is.
  function Resized(plan: seq<Planned>, size: int): seq<Planned> {
    if plan == [] then []
    else if plan[0].part == Images then [Planned(Images, size)] + plan[1..]
    else [plan[0]] + Resized(plan[1..], size)
  }

  // The partitions before the i-th are none of them.
  lemma {:induction false} ResizedFrom(plan: seq<Planned>, size: int, i: nat)
    requires i <= |plan| && forall j | 0 <= j < i :: plan[j].part != Images
    ensures Resized(plan, size) == plan[..i] + Resized(plan[i..], size)
    decreases i
  {
    if i > 0 {
      var rest := plan[1..];
      calc {
        Resized(plan, size);
        [plan[0]] + Resized(rest, size);
        { ResizedFrom(rest, size, i - 1); }
        [plan[0]] + (rest[..i - 1] + Resized(rest[i - 1..], size));
        { assert rest[i - 1..] == plan[i..]; }
        [plan[0]] + (rest[..i - 1] + Resized(plan[i..], size));
        ([plan[0]] + rest[..i - 1]) + Resized(plan[i..], size);
        { assert [plan[0]] + rest[..i - 1] == plan[..i]; }
        plan[..i] + Resized(plan[i..], size);
      }
    } else {
      assert plan[..0] + Resized(plan[0..], size) == Resized(plan[0..], size) && plan[0..] == plan;
    }
  }

  // setIBIImagesSize
  method SetIBIImagesSize(plan: array<Planned>, size: int)
    modifies plan
    ensures plan[..] == Resized(old(plan[..]), size)
  {
    for i := 0 to plan.Length
      invariant plan[..] == old(plan[..])
      invariant forall j | 0 <= j < i :: plan[j].part != Images
    {
      if plan[i].part == Images {
        ResizedFrom(plan[..], size, i);
        plan[i] := plan[i].(size := size);
        return;
      }
    }
    ResizedFrom(plan[..], size, plan.Length);
  }

  function Sum(plan: seq<Planned>): int {
    if plan == [] then 0 else Sum(plan[..|plan| - 1]) + plan[|plan| - 1].size
  }

  // The size the media must have, in unbounded arithmetic.
  function Needed(mode: Mode, iso: int, plan: seq<Planned>): int {
    (iso + MIB - 1) / MIB * MIB + Sum(plan) + (if mode.SelfContained? then EXT_SLACK else 0) + SLACK
  }

  predicate WholeMiB(plan: seq<Planned>) {
    forall i | 0 <= i < |plan| :: 0 <= plan[i].size && plan[i].size % MIB == 0
  }

  // containerSize: it is what is needed as long as that fits.
  method ContainerSize(mode: Mode, iso: int, plan: seq<Planned>) returns (total: int)
    requires 0 <= iso && WholeMiB(plan) && Needed(mode, iso, plan) <= MAX - MIB
    ensures total == Needed(mode, iso, plan)
  {
    SumBounds(plan, |plan|);
    assert plan[..|plan|] == plan;
    AlignUpIsNextMiB(iso);
    NextMiB(iso, AlignUp(iso));
    total := AlignUp(iso);
    ghost var start := total;
    for i := 0 to |plan|
      invariant total == start + Sum(plan[..i])
    {
      SumNext(plan, i);
      total := Wrap(total + plan[i].size);
    }
    AlignedPlus(start, Sum(plan));
    AlignedPlus(total, EXT_SLACK);
    if mode.SelfContained? { total := Wrap(total + EXT_SLACK); }
    AlignedPlus(total, SLACK);
    total := Wrap(total + SLACK);
    AlignedStays(total);
    total := AlignUp(total);
  }

  lemma AlignedPlus(a: int, b: int)
    requires a % MIB == 0 && b % MIB == 0
    ensures (a + b) % MIB == 0
  {}

  lemma AlignedStays(v: int)
    requires 0 <= v <= MAX - MIB && v % MIB == 0
    ensures AlignUp(v) == v
  {
    AlignUpIsNextMiB(v);
  }

  lemma SumNext(plan: seq<Planned>, i: nat)
    requires WholeMiB(plan) && i < |plan|
    ensures Sum(plan[..i + 1]) == Sum(plan[..i]) + plan[i].size
    ensures 0 <= Sum(plan[..i]) <= Sum(plan[..i + 1]) <= Sum(plan)
  {
    SumBounds(plan, i);
    SumBounds(plan, i + 1);
    assert plan[..i + 1][..i] == plan[..i];
  }

  lemma NextMiB(v: int, a: int)
    requires 0 <= v <= a < v + MIB && a % MIB == 0
    ensures a == (v + MIB - 1) / MIB * MIB
  {}

  lemma {:induction false} SumBounds(plan: seq<Planned>, k: nat)
    requires WholeMiB(plan) && k <= |plan|
    ensures 0 <= Sum(plan[..k]) <= Sum(plan) && Sum(plan[..k]) % MIB == 0
    decreases |plan|
  {
    if plan == [] {
    } else if k == |plan| {
      assert plan[..k] == plan;
      SumBounds(plan[..k - 1], k - 1);
      assert plan[..k - 1][..k - 1] == plan[..k - 1];
    } else {
      var init := plan[..|plan| - 1];
      SumBounds(init, k);
      assert init[..k] == plan[..k];
    }
  }

  // ----- the sfdisk script -----

  // A script line; no start means the first place after what is there already.
  datatype Kind = Linux | Extended

  datatype Line = Line(start: Option<int>, sizeMiB: int, kind: Kind)

  // plannedPartition
  function PlannedPartition(plan: seq<Planned>, part: Label): Option<Planned> {
    if plan == [] then None
    else if plan[0].part == part then Some(plan[0])
    else PlannedPartition(plan[1..], part)
  }

  // sfdiskAppendScript
  function Script(mode: Mode, plan: seq<Planned>, startSector: int): Option<seq<Line>> {
    var images, status, config :=
      PlannedPartition(plan, Images), PlannedPartition(plan, Status), PlannedPartition(plan, ClusterConfig);
    if startSector <= 0 || images.None? || status.None? then None
    else
      var first := Line(Some(startSector), Quotient(images.value.size, MIB), Linux);
      var last := Line(None, Quotient(status.value.size, MIB), Linux);
      if mode.InstallOnly? then Some([first, last])
      else if config.None? then None
      else
        var ext := Quotient(Wrap(Wrap(config.value.size + status.value.size) + EXT_SLACK), MIB);
        Some([first, Line(None, ext, Extended), Line(None, Quotient(config.value.size, MIB), Linux), last])
  }

  // ----- what sfdisk makes of it -----

  datatype Region = Region(start: int, size: int, kind: Kind) {
    function End(): int {
      start + size
    }
  }

  // Where the next partition goes: after the last one, or inside an extended partition, one MiB
  // (its boot record, aligned) after the beginning or after the last logical one.
  function Next(placed: seq<Region>): int {
    if placed == [] then 0
    else
      var last := placed[|placed| - 1];
      if last.kind.Extended? then last.start + MIB
      else if exists i | 0 <= i < |placed| :: placed[i].kind.Extended? then last.End() + MIB
      else last.End()
  }

  function Place(lines: seq<Line>): seq<Region> {
    if lines == [] then []
    else
      var n := |lines| - 1;
      var placed, line := Place(lines[..n]), lines[n];
      placed + [Region(if line.start.Some? then line.start.value * SECTOR else Next(placed), line.sizeMiB * MIB, line.kind)]
  }

  // validateUSBSizeBudget
  predicate WithinBudget(budget: int, total: int) {
    budget <= 0 || total <= budget
  }

  // The plan for a payload.
  function MediaPlan(mode: Mode, payload: int): seq<Planned> {
    Resized(PartitionPlan(mode), ImagesSize(payload))
  }

  // The plan, whatever the size of ibi-images.
  lemma PlanShape(mode: Mode, size: int)
    ensures var plan := Resized(PartitionPlan(mode), size);
            && Sum(plan) == size + P4_SIZE + (if mode.SelfContained? then P3_SIZE else 0)
            && (size >= 0 && size % MIB == 0 ==> WholeMiB(plan))
            && PlannedPartition(plan, Images) == Some(Planned(Images, size))
            && PlannedPartition(plan, Status) == Some(Planned(Status, P4_SIZE))
            && (mode.SelfContained? ==> PlannedPartition(plan, ClusterConfig) == Some(Planned(ClusterConfig, P3_SIZE)))
  {
    var images, config, status := Planned(Images, size), Planned(ClusterConfig, P3_SIZE), Planned(Status, P4_SIZE);
    var plan := Resized(PartitionPlan(mode), size);
    SumAppended([], images);
    FindStatus();
    if mode.SelfContained? {
      SumAppended([images], config);
      SumAppended([images] + [config], status);
      assert plan == [] + [images] + [config] + [status] && plan[1..] == [config, status];
    } else {
      SumAppended([images], status);
      assert plan == [] + [images] + [status] && plan[1..] == [status];
    }
  }

  lemma FindStatus()
    ensures var config, status := Planned(ClusterConfig, P3_SIZE), Planned(Status, P4_SIZE);
            && PlannedPartition([status], Status) == Some(status)
            && PlannedPartition([config, status], Status) == Some(status)
            && PlannedPartition([config, status], ClusterConfig) == Some(config)
  {
    assert [Planned(ClusterConfig, P3_SIZE), Planned(Status, P4_SIZE)][1..] == [Planned(Status, P4_SIZE)];
  }

  lemma PlanSizes(mode: Mode, payload: int)
    requires 0 <= payload && payload * 110 <= MAX
    ensures var plan := MediaPlan(mode, payload);
            && WholeMiB(plan) && ImagesSize(payload) % MIB == 0
            && Sum(plan) == ImagesSize(payload) + P4_SIZE + (if mode.SelfContained? then P3_SIZE else 0)
  {
    SizeWithoutOverflow(payload);
    PlanShape(mode, ImagesSize(payload));
  }

  lemma SumAppended(plan: seq<Planned>, p: Planned)
    ensures Sum(plan + [p]) == Sum(plan) + p.size
  {
    assert (plan + [p])[..|plan|] == plan;
  }

  // The four regions of self-contained media, and the two of install-only media, with ibi-images of
  // the given size at the given start.
  function RegionsAt(mode: Mode, start: int, size: int): seq<Region> {
    if mode.InstallOnly? then [Region(start, size, Linux), Region(start + size, P4_SIZE, Linux)]
    else
      var ext := start + size;
      [Region(start, size, Linux),
       Region(ext, P3_SIZE + P4_SIZE + EXT_SLACK, Extended),
       Region(ext + MIB, P3_SIZE, Linux),
       Region(ext + MIB + P3_SIZE + MIB, P4_SIZE, Linux)]
  }

  function Regions(mode: Mode, iso: int, payload: int): seq<Region> {
    RegionsAt(mode, AlignUp(iso), ImagesSize(payload))
  }

  // What the script lines say, and where sfdisk puts them.
  function Lines(mode: Mode, sector: int, sizeMiB: int): seq<Line> {
    if mode.InstallOnly? then [Line(Some(sector), sizeMiB, Linux), Line(None, P4_SIZE / MIB, Linux)]
    else
      [Line(Some(sector), sizeMiB, Linux), Line(None, (P3_SIZE + P4_SIZE + EXT_SLACK) / MIB, Extended),
       Line(None, P3_SIZE / MIB, Linux), Line(None, P4_SIZE / MIB, Linux)]
  }

  lemma PlacedLast(lines: seq<Line>, line: Line)
    ensures Place(lines + [line]) == Place(lines) +
              [Region(if line.start.Some? then line.start.value * SECTOR else Next(Place(lines)), line.sizeMiB * MIB, line.kind)]
  {
    assert (lines + [line])[..|lines|] == lines;
  }

  // After a first partition that says where it starts, the second.
  lemma PlacedTwo(l0: Line, l1: Line)
    requires l0.start.Some? && l0.kind.Linux? && l1.start.None?
    ensures var r0 := Region(l0.start.value * SECTOR, l0.sizeMiB * MIB, l0.kind);
            Place([l0, l1]) == [r0, Region(r0.End(), l1.sizeMiB * MIB, l1.kind)]
  {
    PlacedLast([], l0);
    assert [] + [l0] == [l0];
    PlacedLast([l0], l1);
    assert [l0] + [l1] == [l0, l1];
    assert Place([l0]) == [Region(l0.start.value * SECTOR, l0.sizeMiB * MIB, l0.kind)];
  }

  // If that is extended, the next two are inside it.
  lemma PlacedInside(two: seq<Line>, r0: Region, r1: Region, l2: Line, l3: Line)
    requires Place(two) == [r0, r1] && r1.kind.Extended? && l2.start.None? && l3.start.None? && l2.kind.Linux?
    ensures var r2 := Region(r1.start + MIB, l2.sizeMiB * MIB, l2.kind);
            Place(two + [l2] + [l3]) == [r0, r1, r2, Region(r2.End() + MIB, l3.sizeMiB * MIB, l3.kind)]
  {
    PlacedLast(two, l2);
    PlacedLast(two + [l2], l3);
    assert Place(two + [l2])[1].kind.Extended?;
  }

  lemma PlacedLines(mode: Mode, sector: int, sizeMiB: int)
    ensures Place(Lines(mode, sector, sizeMiB)) == RegionsAt(mode, sector * SECTOR, sizeMiB * MIB)
  {
    var ls := Lines(mode, sector, sizeMiB);
    PlacedTwo(ls[0], ls[1]);
    if mode.SelfContained? {
      var rs := Place([ls[0], ls[1]]);
      PlacedInside([ls[0], ls[1]], rs[0], rs[1], ls[2], ls[3]);
      assert [ls[0], ls[1]] + [ls[2]] + [ls[3]] == ls;
    } else {
      assert ls == [ls[0], ls[1]];
    }
  }

  lemma PlacedRegions(mode: Mode, iso: int, payload: int)
    requires 0 < iso <= MAX - MIB && 0 <= payload && payload * 110 <= MAX
    ensures var script := Script(mode, MediaPlan(mode, payload), Quotient(AlignUp(iso), SECTOR));
            script.Some? && Place(script.value) == Regions(mode, iso, payload)
  {
    PlanSizes(mode, payload);
    ImagesSizeHolds(payload);
    AlignUpIsNextMiB(iso);
    WholeUnits(AlignUp(iso));
    WholeUnits(ImagesSize(payload));
    ScriptLines(mode, ImagesSize(payload), AlignUp(iso) / SECTOR);
    PlacedLines(mode, AlignUp(iso) / SECTOR, ImagesSize(payload) / MIB);
  }

  lemma WholeUnits(v: int)
    requires v % MIB == 0
    ensures v / MIB * MIB == v && v / SECTOR * SECTOR == v
  {
    assert MIB == 2048 * SECTOR;
  }

  lemma ScriptLines(mode: Mode, size: int, sector: int)
    requires size >= 0 && sector > 0
    ensures Script(mode, Resized(PartitionPlan(mode), size), sector) == Some(Lines(mode, sector, size / MIB))
  {
    PlanShape(mode, size);
  }

  predicate Disjoint(rs: seq<Region>) {
    forall i, j | 0 <= i < j < |rs| && !rs[i].kind.Extended? :: rs[i].End() <= rs[j].start
  }

  predicate Nested(rs: seq<Region>) {
    forall i, j | 0 <= i < j < |rs| && rs[i].kind.Extended? ::
      && rs[i].start + MIB <= rs[j].start && rs[j].End() <= rs[i].End()
      && (j > i + 1 ==> rs[j - 1].End() + MIB <= rs[j].start)
  }

  // Everything starts after the ISO and ends within the total; data partitions do not overlap; the
  // logical ones lie in the extended one with a MiB before each; sizes are the planned ones.
  predicate Fits(mode: Mode, iso: int, payload: int, total: int, rs: seq<Region>) {
    && |rs| == (if mode.SelfContained? then 4 else 2)
    && (forall i | 0 <= i < |rs| :: iso <= rs[i].start && rs[i].End() <= total)
    && Disjoint(rs) && Nested(rs)
    && rs[0].size >= P2_MIN && rs[0].size >= payload + payload / 10 + METADATA
    && rs[|rs| - 1].size == P4_SIZE && (mode.SelfContained? ==> rs[2].size == P3_SIZE)
  }

  lemma RegionsAtFit(mode: Mode, iso: int, payload: int, start: int, size: int, total: int)
    requires iso <= start && size >= P2_MIN && size >= payload + payload / 10 + METADATA
    requires total >= start + size + P4_SIZE + if mode.SelfContained? then P3_SIZE + EXT_SLACK else 0
    ensures Fits(mode, iso, payload, total, RegionsAt(mode, start, size))
  {
    DisjointAt(mode, start, size);
    NestedAt(mode, start, size);
  }

  lemma DisjointAt(mode: Mode, start: int, size: int)
    requires size >= P2_MIN
    ensures Disjoint(RegionsAt(mode, start, size))
  {}

  lemma NestedAt(mode: Mode, start: int, size: int)
    requires size >= P2_MIN
    ensures Nested(RegionsAt(mode, start, size))
  {}

  lemma RegionsFit(mode: Mode, iso: int, payload: int)
    requires 0 < iso <= MAX - MIB && 0 <= payload && payload * 110 <= MAX
    ensures Fits(mode, iso, payload, Needed(mode, iso, MediaPlan(mode, payload)), Regions(mode, iso, payload))
  {
    PlanSizes(mode, payload);
    ImagesSizeHolds(payload);
    AlignUpIsNextMiB(iso);
    NextMiB(iso, AlignUp(iso));
    RegionsAtFit(mode, iso, payload, AlignUp(iso), ImagesSize(payload), Needed(mode, iso, MediaPlan(mode, payload)));
  }

  // The layout of every media whose total size fits 64 bits, and so of every one within a budget.
  lemma LayoutFits(mode: Mode, iso: int, payload: int, budget: int)
    requires 0 < iso && 0 <= payload && payload * 110 <= MAX
    requires Needed(mode, iso, MediaPlan(mode, payload)) <= MAX - MIB
    ensures var plan := MediaPlan(mode, payload);
            var script := Script(mode, plan, Quotient(AlignUp(iso), SECTOR));
            && script.Some?
            && Fits(mode, iso, payload, Needed(mode, iso, plan), Place(script.value))
            && (budget > 0 && WithinBudget(budget, Needed(mode, iso, plan)) ==>
                  Fits(mode, iso, payload, budget, Place(script.value)))
  {
    ISOBelow(mode, iso, payload);
    PlacedRegions(mode, iso, payload);
    RegionsFit(mode, iso, payload);
    FitsLarger(mode, iso, payload, Needed(mode, iso, MediaPlan(mode, payload)), budget, Regions(mode, iso, payload));
  }

  lemma ISOBelow(mode: Mode, iso: int, payload: int)
    requires 0 < iso && 0 <= payload && payload * 110 <= MAX
    requires Needed(mode, iso, MediaPlan(mode, payload)) <= MAX - MIB
    ensures iso <= MAX - MIB
  {
    PlanSizes(mode, payload);
    ImagesSizeHolds(payload);
    assert iso <= (iso + MIB - 1) / MIB * MIB;
  }

  lemma FitsLarger(mode: Mode, iso: int, payload: int, total: int, larger: int, rs: seq<Region>)
    requires Fits(mode, iso, payload, total, rs)
    ensures total <= larger ==> Fits(mode, iso, payload, larger, rs)
  {}

  // Nothing is wasted: the partitions follow each other from the first whole MiB after the ISO, and
  // the media ends 64 MiB after the last primary one.
  lemma LayoutTight(mode: Mode, iso: int, payload: int)
    requires 0 < iso && 0 <= payload && payload * 110 <= MAX
    requires Needed(mode, iso, MediaPlan(mode, payload)) <= MAX - MIB
    ensures var plan := MediaPlan(mode, payload);
            var script := Script(mode, plan, Quotient(AlignUp(iso), SECTOR));
            && script.Some? && |Place(script.value)| >= 2
            && var rs := Place(script.value);
            && iso <= rs[0].start < iso + MIB && rs[0].start % MIB == 0
            && rs[0].size == ImagesSize(payload) && rs[1].start == rs[0].End()
            && rs[1].size == (if mode.SelfContained? then 256 * MIB + 64 * MIB + 16 * MIB else 64 * MIB)
            && rs[1].End() + 64 * MIB == Needed(mode, iso, plan)
  {
    ISOBelow(mode, iso, payload);
    PlanSizes(mode, payload);
    PlacedRegions(mode, iso, payload);
    AlignUpIsNextMiB(iso);
    NextMiB(iso, AlignUp(iso));
  }
}
