/** The robot face randomiser: picks a face texture (at random or by
    index) and writes it into both texture slots of the renderer's
    property block. */
module RobotFace {
  import opened Common

  datatype Face = Face(id: nat)

  /** The two texture slots the randomiser writes; the URP shader reads
      the first, other shaders the second. */
  datatype Block = Block(baseMap: Option<Face>, mainTex: Option<Face>)

  /** `faces` is None for a null array. */
  datatype Randomiser = Randomiser(hasRenderer: bool, faces: Option<seq<Face>>, block: Block)

  function FaceCount(r: Randomiser): (n: nat)
    ensures n == 0 <==> r.faces.None? || |r.faces.value| == 0
    ensures r.faces.Some? ==> n == |r.faces.value|
  {
    if r.faces.None? then 0 else |r.faces.value|
  }

  /** Both guards of RandomiseFace and SetFaceIndex pass. */
  predicate CanShow(r: Randomiser) {
    r.hasRenderer && FaceCount(r) > 0
  }

  /** The face shown in both slots, if the block holds one face twice. */
  function Shown(b: Block): Option<Face> {
    if b.baseMap == b.mainTex then b.baseMap else None
  }

  function Show(r: Randomiser, i: int): (r': Randomiser)
    requires CanShow(r) && 0 <= i < FaceCount(r)
    ensures r'.block.baseMap == r'.block.mainTex == Some(r.faces.value[i])
    ensures r'.hasRenderer == r.hasRenderer && r'.faces == r.faces
  {
    var f := r.faces.value[i];
    r.(block := Block(Some(f), Some(f)))
  }

  function SetFaceIndex(r: Randomiser, index: int): (r': Randomiser)
    ensures !CanShow(r) ==> r' == r
    ensures CanShow(r) ==> r'.block.baseMap == r'.block.mainTex && Shown(r'.block).Some?
    ensures CanShow(r) && 0 <= index < FaceCount(r) ==> Shown(r'.block) == Some(r.faces.value[index])
    ensures CanShow(r) && index < 0 ==> Shown(r'.block) == Some(r.faces.value[0])
    ensures CanShow(r) && index >= FaceCount(r) ==> Shown(r'.block) == Some(r.faces.value[FaceCount(r) - 1])
    ensures FaceCount(r') == FaceCount(r) && r'.hasRenderer == r.hasRenderer
  {
    if !CanShow(r) then r
    else Show(r, ClampInt(index, 0, FaceCount(r) - 1))
  }

  /** `draw` is the Random.Range(0, FaceCount) result; it is only drawn
      when both guards pass. */
  function RandomiseFace(r: Randomiser, draw: int): (r': Randomiser)
    requires CanShow(r) ==> RangeDraw(draw, 0, FaceCount(r))
    ensures !CanShow(r) ==> r' == r
    ensures CanShow(r) ==> Shown(r'.block) == Some(r.faces.value[draw]) && r'.block.baseMap == r'.block.mainTex
    ensures FaceCount(r') == FaceCount(r) && r'.hasRenderer == r.hasRenderer
  {
    if !CanShow(r) then r
    else Show(r, draw)
  }

  /** A random pick is the same as asking for that index: the random draw
      never needs the clamp. */
  lemma RandomIsSetIndex(r: Randomiser, draw: int)
    requires CanShow(r) ==> RangeDraw(draw, 0, FaceCount(r))
    ensures RandomiseFace(r, draw) == SetFaceIndex(r, draw)
  {
  }

  /** Asking twice for the same index changes nothing the second time. */
  lemma SetFaceIndexIdempotent(r: Randomiser, index: int)
    ensures SetFaceIndex(SetFaceIndex(r, index), index) == SetFaceIndex(r, index)
  {
  }

  /** Every face can be shown, and any index shows a face of the list. */
  lemma EveryIndexShowsAListedFace(r: Randomiser, index: int)
    requires CanShow(r)
    ensures Shown(SetFaceIndex(r, index).block).value in r.faces.value
  {
  }
}
