/** The geological layer catalog: the seven layers, which tags each layer
    groups, the points and percentage each is worth in the exam, the target
    correct rate the scheduler measures tags against, and the normalisation
    of the eleven legacy depths onto the seven canonical ones. */
module Layers {
  import opened Types

  datatype Layer = Layer(
    depth: int,
    name: string,
    tags: seq<Tag>,
    points: int,
    percent: int,
    targetRate: real,
    color: string,
    emoji: string)

  /** `TAG_TO_LAYER_DEPTH` */
  function TagToLayerDepth(t: Tag): (d: int)
    ensures 1 <= d <= 7
  {
    match t
    case Radical => 1
    case StrokeCount => 1
    case Okurigana => 2
    case JukugoMaking => 2
    case Homophone => 3
    case Reading => 4
    case OnKun => 4
    case AntonymSynonym => 5
    case CompoundStructure => 6
    case ThreeCharCompound => 6
    case Writing => 7
  }

  /** `LAYERS` */
  const AllLayers: seq<Layer> := [
    Layer(1, "表土・腐植層", [Radical, StrokeCount], 20, 10, 0.94, "#6ABF4B", "🌿"),
    Layer(2, "未固結堆積層", [Okurigana, JukugoMaking], 22, 11, 0.90, "#D39B59", "🪨"),
    Layer(3, "固結堆積岩層", [Homophone], 18, 9, 0.90, "#B9854F", "🏛️"),
    Layer(4, "炭酸塩・水成層", [Reading, OnKun], 40, 20, 0.83, "#86B8D8", "💧"),
    Layer(5, "熱水鉱床帯", [AntonymSynonym], 20, 10, 0.85, "#A874CC", "♨️"),
    Layer(6, "変成・火成岩帯", [CompoundStructure, ThreeCharCompound], 40, 20, 0.89, "#5E769A", "🧩"),
    Layer(7, "深成岩・マグマ帯", [Writing], 40, 20, 0.85, "#E55B2A", "🌋")
  ]

  const TotalPoints: int := 200
  const PassingScore: int := 140

  /** `MAX_LAYER_DEPTH`: the depth of the last layer, 7 as a fallback. */
  function MaxLayerDepth(): (d: int)
    ensures d == 7
    ensures forall i | 0 <= i < |AllLayers| :: AllLayers[i].depth <= d
  {
    if |AllLayers| > 0 then AllLayers[|AllLayers| - 1].depth else 7
  }

  /** First layer of `ls` with depth `d`; the depths are distinct, so it is the
      entry `Object.fromEntries` keeps. */
  function FindDepth(ls: seq<Layer>, d: int): (r: Option<Layer>)
    ensures r.Some? ==> r.value in ls && r.value.depth == d
    ensures r.None? ==> forall l | l in ls :: l.depth != d
  {
    if ls == [] then None
    else if ls[0].depth == d then Some(ls[0])
    else FindDepth(ls[1..], d)
  }

  /** On layers numbered consecutively from `base`, the search finds depth
      `d` at position `d - base`. */
  lemma {:induction false} FindDepthConsecutive(ls: seq<Layer>, d: int, base: int)
    requires forall i | 0 <= i < |ls| :: ls[i].depth == base + i
    ensures FindDepth(ls, d) == if base <= d < base + |ls| then Some(ls[d - base]) else None
  {
    if ls != [] && ls[0].depth != d {
      FindDepthConsecutive(ls[1..], d, base + 1);
    }
  }

  /** `CANONICAL_LAYER_BY_DEPTH[d]` */
  function CanonicalLayerByDepth(d: int): (r: Option<Layer>)
    ensures r.Some? <==> 1 <= d <= 7
    ensures r.Some? ==> r.value == AllLayers[d - 1]
  {
    FindDepthConsecutive(AllLayers, d, 1);
    FindDepth(AllLayers, d)
  }

  /** `LEGACY_DEPTH_TO_CANONICAL[d]` */
  function LegacyDepthToCanonical(d: int): (r: Option<int>)
    ensures r.Some? <==> 1 <= d <= 11
    ensures r.Some? ==> 1 <= r.value <= 7
  {
    if d == 1 || d == 2 then Some(1)
    else if d == 3 || d == 4 then Some(2)
    else if d == 5 then Some(3)
    else if d == 6 then Some(5)
    else if d == 7 then Some(4)
    else if d == 8 || d == 9 then Some(6)
    else if d == 10 || d == 11 then Some(7)
    else None
  }

  /** `LAYER_BY_DEPTH[d]`: the legacy entries spread first, then the canonical
      ones, so a canonical depth wins over its legacy meaning. */
  function LayerByDepth(d: int): Option<Layer>
  {
    var canonical := CanonicalLayerByDepth(d);
    if canonical.Some? then canonical
    else match LegacyDepthToCanonical(d)
      case None => None
      case Some(c) => CanonicalLayerByDepth(c)
  }

  /** `LAYER_BY_TAG[t]`: the layer at the tag's depth, and that layer lists the tag. */
  function LayerByTag(t: Tag): (l: Layer)
    ensures l in AllLayers && t in l.tags
    ensures l.depth == TagToLayerDepth(t)
    ensures 0.0 < l.targetRate < 1.0
  {
    AllLayers[TagToLayerDepth(t) - 1]
  }

  function SumPoints(ls: seq<Layer>): int
  {
    if ls == [] then 0 else ls[0].points + SumPoints(ls[1..])
  }

  function SumPercent(ls: seq<Layer>): int
  {
    if ls == [] then 0 else ls[0].percent + SumPercent(ls[1..])
  }

  /** Depth d canonically means layer d; legacy 8 and 9 mean layer 6, legacy 10
      and 11 mean layer 7; no other depth names a layer. */
  lemma LayerByDepthNormalises(d: int)
    ensures 1 <= d <= 7 ==> LayerByDepth(d) == Some(AllLayers[d - 1])
    ensures (d == 8 || d == 9) ==> LayerByDepth(d) == Some(AllLayers[5])
    ensures (d == 10 || d == 11) ==> LayerByDepth(d) == Some(AllLayers[6])
    ensures (d < 1 || d > 11) ==> LayerByDepth(d) == None
  {
  }

  /** The layers partition the tags: a layer lists a tag exactly when the
      layer's depth is the tag's depth. */
  lemma LayersPartitionTags(t: Tag, i: nat)
    requires i < |AllLayers|
    ensures t in AllLayers[i].tags <==> AllLayers[i].depth == TagToLayerDepth(t)
  {
  }

  /** Depths run 1..7 in order, the last one is `MAX_LAYER_DEPTH`, every
      target rate is a proper fraction, and no layer repeats a tag. */
  lemma LayersWellFormed(i: nat)
    requires i < |AllLayers|
    ensures AllLayers[i].depth == i + 1 <= MaxLayerDepth()
    ensures 0.0 < AllLayers[i].targetRate < 1.0
    ensures forall j, k | 0 <= j < k < |AllLayers[i].tags| :: AllLayers[i].tags[j] != AllLayers[i].tags[k]
  {
  }

  /** The exam is worth `TOTAL_POINTS`, split 100 percent over the layers. */
  lemma PointsAndPercentTotals()
    ensures SumPoints(AllLayers) == TotalPoints
    ensures SumPercent(AllLayers) == 100
    ensures PassingScore * 10 == TotalPoints * 7
  {
  }

  /** `LAYER_BY_DEPTH` only ever yields catalog layers. */
  lemma LayerByDepthInCatalog(d: int)
    requires LayerByDepth(d).Some?
    ensures LayerByDepth(d).value in AllLayers
  {
    LayerByDepthNormalises(d);
  }

  /** Every layer groups one or two tags, none twice. */
  lemma LayerTagsShort(l: Layer)
    requires l in AllLayers
    ensures 1 <= |l.tags| <= 2
    ensures forall i, j | 0 <= i < j < |l.tags| :: l.tags[i] != l.tags[j]
  {
  }
}
