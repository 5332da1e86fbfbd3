/** The progress web (components/spider-web.tsx): five rings of four
    phase segments each, their radii and angular bounds, which segment is
    current and which is flagged completed (a flag that is never drawn),
    the current-position marker and the hover and
    click handling. The SVG path text (sines and cosines) is not modelled;
    a segment carries the numbers the path is drawn from. */
module SpiderWeb {
  import opened Types
  import opened SeqUtil

  /** The web is drawn with six ring bands: the centre circle and rings 1..5. */
  const RingCount: nat := 6
  const FirstRing: nat := 1
  const LastRing: nat := 5

  function MaxRadius(size: real): real { size / 2.0 - 20.0 }

  function RingWidth(size: real): real { MaxRadius(size) / RingCount as real }

  function InnerRadius(size: real, ring: int): real { ring as real * RingWidth(size) }

  function OuterRadius(size: real, ring: int): real { (ring + 1) as real * RingWidth(size) }

  /** Ring bands are adjacent, strictly nested when the band width is
      positive, and the outermost drawn ring ends at the web's edge. */
  lemma RingRadii(size: real, ring: int, other: int)
    ensures OuterRadius(size, ring) == InnerRadius(size, ring + 1)
    ensures OuterRadius(size, LastRing) == MaxRadius(size)
    ensures RingWidth(size) > 0.0 ==> InnerRadius(size, ring) < OuterRadius(size, ring)
    ensures RingWidth(size) > 0.0 && ring < other ==> InnerRadius(size, ring) < InnerRadius(size, other)
  {
    var w := RingWidth(size);
    assert OuterRadius(size, ring) == ring as real * w + w;
    if w > 0.0 && ring < other {
      assert InnerRadius(size, other) - InnerRadius(size, ring) == (other - ring) as real * w;
    }
  }

  /** `size > 40` is exactly when the bands have positive width. */
  lemma PositiveWidth(size: real)
    ensures RingWidth(size) > 0.0 <==> size > 40.0
  {
  }

  /** The SVG large-arc flag of `createArcPath`. */
  function LargeArc(startAngle: int, endAngle: int): (flag: int)
    ensures flag == 0 || flag == 1
    ensures flag == 1 <==> endAngle - startAngle > 180
  {
    if endAngle - startAngle > 180 then 1 else 0
  }

  /** No configured phase spans more than half a turn, so every segment
      is drawn with small arcs. */
  lemma ConfiguredArcsAreSmall(p: Phase)
    ensures LargeArc(Config(p).angle.start, Config(p).angle.end) == 0
  {
  }

  /** The `ring-<n>` tag the completion heuristic looks for. */
  function RingTag(ring: nat): string {
    "ring-" + NatToString(ring)
  }

  /** A cell is flagged completed when some completed id contains both the
      ring's `ring-<n>` tag and the phase name as substrings. */
  predicate SegmentCompleted(completed: seq<string>, ring: nat, phase: Phase) {
    exists i :: 0 <= i < |completed| && IsSubstring(completed[i], RingTag(ring)) && IsSubstring(completed[i], PhaseName(phase))
  }

  /** The record the web computes for one (ring, phase) cell. `path` of the
      source is replaced by the radii and angles it is built from. Drawing
      reads the ring, phase, path and `isCurrent`; `isCompleted` is computed
      but never drawn. */
  datatype Segment = Segment(
    ring: int,
    phase: Phase,
    innerRadius: real,
    outerRadius: real,
    startAngle: int,
    endAngle: int,
    largeArc: int,
    color: string,
    isCompleted: bool,
    isCurrent: bool)

  /** One segment, built as the loop body builds it. */
  function MakeSegment(size: real, completed: seq<string>, currentRing: int, currentPhase: Phase,
                       ring: nat, phase: Phase): Segment
  {
    var angle := Config(phase).angle;
    Segment(ring, phase, InnerRadius(size, ring), OuterRadius(size, ring),
            angle.start, angle.end, LargeArc(angle.start, angle.end), Config(phase).color,
            SegmentCompleted(completed, ring, phase),
            ring == currentRing && phase == currentPhase)
  }

  /** Where the segment for (ring, phase) sits in the ring-major order. */
  function SegmentIndex(ring: int, phase: Phase): int {
    (ring - FirstRing) * |Phases| + PhaseIndex(phase)
  }

  /** The whole grid: ring-major, phases in `PHASE_CONFIG` order. */
  function Segments(size: real, completed: seq<string>, currentRing: int, currentPhase: Phase): (segs: seq<Segment>)
    ensures |segs| == 20
  {
    seq(20, k requires 0 <= k < 20 => MakeSegment(size, completed, currentRing, currentPhase, k / 4 + 1, Phases[k % 4]))
  }

  /** Index `(ring - 1) * 4 + j` holds ring `ring` and the `j`-th phase. */
  lemma CellOfIndex(ring: int, j: int)
    requires FirstRing <= ring <= LastRing && 0 <= j < 4
    ensures ((ring - 1) * 4 + j) / 4 + 1 == ring
    ensures ((ring - 1) * 4 + j) % 4 == j
  {
  }

  /** The `segments` memo: nested loops over rings 1..5 and the phases,
      pushing one segment per cell. */
  method BuildSegments(size: real, completed: seq<string>, currentRing: int, currentPhase: Phase)
    returns (result: seq<Segment>)
    ensures result == Segments(size, completed, currentRing, currentPhase)
  {
    ghost var spec := Segments(size, completed, currentRing, currentPhase);
    result := [];
    for ring := FirstRing to LastRing + 1
      invariant |result| == (ring - FirstRing) * |Phases|
      invariant result == spec[..|result|]
    {
      for j := 0 to |Phases|
        invariant |result| == (ring - FirstRing) * |Phases| + j
        invariant result == spec[..|result|]
      {
        CellOfIndex(ring, j);
        ghost var k := |result|;
        var seg := MakeSegment(size, completed, currentRing, currentPhase, ring, Phases[j]);
        assert spec[k] == seg;
        assert spec[..k + 1] == spec[..k] + [seg];
        result := result + [seg];
      }
    }
  }

  /** The grid has one segment per (ring, phase) cell, each at
      `SegmentIndex`, with the ring's radii and the phase's interval. */
  lemma SegmentsCoverGrid(size: real, completed: seq<string>, currentRing: int, currentPhase: Phase,
                          ring: int, phase: Phase)
    requires FirstRing <= ring <= LastRing
    ensures var segs := Segments(size, completed, currentRing, currentPhase);
      && |segs| == 20
      && 0 <= SegmentIndex(ring, phase) < 20
      && segs[SegmentIndex(ring, phase)].ring == ring
      && segs[SegmentIndex(ring, phase)].phase == phase
      && segs[SegmentIndex(ring, phase)].innerRadius == InnerRadius(size, ring)
      && segs[SegmentIndex(ring, phase)].outerRadius == OuterRadius(size, ring)
      && segs[SegmentIndex(ring, phase)].startAngle == Config(phase).angle.start
      && segs[SegmentIndex(ring, phase)].endAngle == Config(phase).angle.end
  {
    var k := SegmentIndex(ring, phase);
    assert k / 4 + 1 == ring && k % 4 == PhaseIndex(phase);
  }

  /** Distinct positions of the grid hold distinct cells. */
  lemma SegmentsDistinct(size: real, completed: seq<string>, currentRing: int, currentPhase: Phase, i: int, j: int)
    requires 0 <= i < j < 20
    ensures var segs := Segments(size, completed, currentRing, currentPhase);
      segs[i].ring != segs[j].ring || segs[i].phase != segs[j].phase
  {
    var segs := Segments(size, completed, currentRing, currentPhase);
    if segs[i].ring == segs[j].ring {
      assert i / 4 == j / 4;
      assert i % 4 != j % 4;
    }
  }

  /** Exactly one segment is current when the current ring is drawn
      (1..5), and none otherwise. */
  lemma CurrentSegmentUnique(size: real, completed: seq<string>, currentRing: int, currentPhase: Phase, k: int)
    requires 0 <= k < 20
    ensures var segs := Segments(size, completed, currentRing, currentPhase);
      segs[k].isCurrent <==> FirstRing <= currentRing <= LastRing && k == SegmentIndex(currentRing, currentPhase)
  {
    var segs := Segments(size, completed, currentRing, currentPhase);
    if segs[k].isCurrent {
      assert Phases[k % 4] == currentPhase;
      assert PhaseIndex(currentPhase) == k % 4;
    }
    if FirstRing <= currentRing <= LastRing && k == SegmentIndex(currentRing, currentPhase) {
      assert k / 4 + 1 == currentRing && k % 4 == PhaseIndex(currentPhase);
    }
  }

  /** No sample lesson id (`lesson-1`, `lesson-2`, `lesson-3`) contains a
      `ring-` tag, so with only those ids completed no segment is ever
      highlighted as completed. */
  lemma SampleIdsNeverComplete(completed: seq<string>, ring: nat, phase: Phase)
    requires forall i :: 0 <= i < |completed| ==> completed[i] in {"lesson-1", "lesson-2", "lesson-3"}
    ensures !SegmentCompleted(completed, ring, phase)
  {
    forall i | 0 <= i < |completed| ensures !IsSubstring(completed[i], RingTag(ring)) {
      assert 'r' !in completed[i];
      assert RingTag(ring)[0] == 'r';
      if IsSubstring(completed[i], RingTag(ring)) {
        SubstringCharsOccur(completed[i], RingTag(ring), 0);
      }
    }
  }

  /** The heuristic over-matches: an id naming ring 10 marks ring 1 too. */
  lemma HeuristicOverMatches()
    ensures SegmentCompleted(["ring-10-functional"], 1, Functional)
  {
    var id := "ring-10-functional";
    assert RingTag(1) == "ring-1";
    assert OccursAt(id, "ring-1", 0) by { assert id[0..6] == "ring-1"; }
    assert OccursAt(id, "functional", 8) by { assert id[8..18] == "functional"; }
    assert IsSubstring(id, RingTag(1)) && IsSubstring(id, PhaseName(Functional));
    assert [id][0] == id;
  }

  /** The current-position marker is drawn only for a positive ring. */
  predicate MarkerVisible(currentRing: int) {
    currentRing > 0
  }

  /** The marker's angle in degrees: the phase's start plus 45. */
  function MarkerAngle(phase: Phase): int {
    Config(phase).angle.start + 45
  }

  /** The marker's distance from the centre: the middle of its ring band. */
  function MarkerRadius(size: real, currentRing: int): real {
    (currentRing as real + 0.5) * RingWidth(size)
  }

  /** For every configured phase the fixed 45-degree offset lands on the
      middle of the phase's interval, and the marker sits strictly inside
      the current ring's band. */
  lemma MarkerInsideCurrentSegment(size: real, phase: Phase, currentRing: int)
    ensures 2 * MarkerAngle(phase) == Config(phase).angle.start + Config(phase).angle.end
    ensures Config(phase).angle.start < MarkerAngle(phase) < Config(phase).angle.end
    ensures RingWidth(size) > 0.0 ==>
      InnerRadius(size, currentRing) < MarkerRadius(size, currentRing) < OuterRadius(size, currentRing)
  {
    var w := RingWidth(size);
    assert MarkerRadius(size, currentRing) == currentRing as real * w + 0.5 * w;
    assert OuterRadius(size, currentRing) == currentRing as real * w + w;
  }

  /** A cell of the web. */
  datatype Position = Position(ring: int, phase: Phase)

  /** The web's own state: which segment the pointer is over. */
  class WebView {
    const interactive: bool
    var hovered: Option<Position>

    /** Only drawn segments (rings 1..5) can be hovered. */
    ghost predicate Valid()
      reads this
    {
      hovered.Some? ==> FirstRing <= hovered.value.ring <= LastRing
    }

    constructor (interactive: bool)
      ensures Valid()
      ensures this.interactive == interactive && hovered == None
    {
      this.interactive := interactive;
      hovered := None;
    }

    /** `onMouseEnter`: hover is tracked only on an interactive web. */
    method MouseEnter(ring: int, phase: Phase)
      requires Valid() && FirstRing <= ring <= LastRing
      modifies this
      ensures Valid()
      ensures hovered == if interactive then Some(Position(ring, phase)) else old(hovered)
    {
      if interactive {
        hovered := Some(Position(ring, phase));
      }
    }

    /** `onMouseLeave`: always clears the hover. */
    method MouseLeave()
      requires Valid()
      modifies this
      ensures Valid() && hovered == None
    {
      hovered := None;
    }

    /** The tooltip's ring caption, `RING_LABELS[hoveredSegment.ring]`. */
    function TooltipRingLabel(): (caption: string)
      reads this
      requires Valid() && hovered.Some?
      ensures caption in RingLabels[1..]
    {
      RingLabels[hovered.value.ring]
    }

    /** `onClick`: the segment's position reaches the callback only on an
        interactive web. */
    function Click(ring: int, phase: Phase): (reported: Option<Position>)
      ensures reported.Some? <==> interactive
      ensures reported.Some? ==> reported.value.ring == ring && reported.value.phase == phase
    {
      if interactive then Some(Position(ring, phase)) else None
    }
  }
}
