/**
 * The pure layout and label helpers of components/instax-3d-card.tsx: the
 * pairing label, the card metrics around the photo, and the photo dimensions
 * derived from the loaded texture. Lengths are three.js scene units.
 */
module InstaxCard {
  import opened Wrappers

  const ASPECT_RATIO: real := 3.0 / 4.0
  const CARD_HEIGHT: real := 3.8
  const CARD_DEPTH: real := 0.1
  const FRAME_PADDING_X: real := 0.2
  const FRAME_PADDING_Y: real := 0.32
  const CARD_MARGIN: real := 0.22
  const BOTTOM_MARGIN: real := 1.5

  /** The separator between the two names. */
  const HEART: string := " \U{2661} "

  datatype InstaxDimensions = InstaxDimensions(width: real, height: real, depth: real)

  datatype CardMetrics = CardMetrics(
    frameOuterWidth: real,
    frameOuterHeight: real,
    cardWidth: real,
    cardHeight: real)

  /** The dimensions used until a texture has loaded: a 3:4 portrait photo of the card height. */
  const DIMENSIONS: InstaxDimensions := InstaxDimensions(CARD_HEIGHT * ASPECT_RATIO, CARD_HEIGHT, CARD_DEPTH)

  /**
   * `maidName && userName ? maidName + " ♡ " + userName : maidName || userName || undefined`;
   * an empty string is falsy.
   */
  function PairingLabel(maidName: string, userName: string): (r: Option<string>)
    ensures r == None <==> maidName == "" && userName == ""
    ensures r.Some? ==> r.value != []
    ensures maidName != "" && userName != "" ==>
              r.Some? && |r.value| == |maidName| + |HEART| + |userName|
              && r.value[..|maidName|] == maidName
              && r.value[|maidName|..|maidName| + |HEART|] == HEART
              && r.value[|maidName| + |HEART|..] == userName
    ensures maidName != "" && userName == "" ==> r == Some(maidName)
    ensures maidName == "" && userName != "" ==> r == Some(userName)
  {
    if maidName != "" && userName != "" then
      var joined := maidName + HEART + userName;
      assert joined[..|maidName|] == maidName;
      assert joined[|maidName|..|maidName| + |HEART|] == HEART;
      assert joined[|maidName| + |HEART|..] == userName;
      Some(joined)
    else if maidName != "" then Some(maidName)
    else if userName != "" then Some(userName)
    else None
  }

  /** `calculateCardMetrics`: a frame padded on every side around the photo, then a card margin and a bottom strip. */
  function CalculateCardMetrics(d: InstaxDimensions): (m: CardMetrics)
    ensures m.frameOuterWidth - d.width == 0.4 && m.frameOuterHeight - d.height == 0.64
    ensures m.cardWidth - m.frameOuterWidth == 0.22 && m.cardHeight - m.frameOuterHeight == 1.72
    ensures d.width < m.frameOuterWidth < m.cardWidth
    ensures d.height < m.frameOuterHeight < m.cardHeight
  {
    var frameOuterWidth := d.width + FRAME_PADDING_X * 2.0;
    var frameOuterHeight := d.height + FRAME_PADDING_Y * 2.0;
    CardMetrics(frameOuterWidth, frameOuterHeight,
                frameOuterWidth + CARD_MARGIN, frameOuterHeight + CARD_MARGIN + BOTTOM_MARGIN)
  }

  /**
   * The dimensions computed from a loaded texture whose source is
   * `sourceWidth` x `sourceHeight` (0 stands for a missing value): none unless
   * both are non-zero; otherwise the card height, the source's aspect ratio
   * and the card depth.
   */
  function LoadedDimensions(sourceWidth: real, sourceHeight: real): (r: Option<InstaxDimensions>)
    ensures r.Some? <==> sourceWidth != 0.0 && sourceHeight != 0.0
    ensures r.Some? ==>
              r.value.height == CARD_HEIGHT && r.value.depth == CARD_DEPTH
              && r.value.width * sourceHeight == CARD_HEIGHT * sourceWidth
  {
    if sourceWidth != 0.0 && sourceHeight != 0.0 then
      var aspect := sourceWidth / sourceHeight;
      var height := CARD_HEIGHT;
      var width := height * aspect;
      Some(InstaxDimensions(width, height, CARD_DEPTH))
    else None
  }

  /** The outcome of the texture callback: the dimensions state afterwards and whether it was replaced. */
  datatype DimensionsUpdate = DimensionsUpdate(dimensions: InstaxDimensions, replaced: bool)

  /**
   * The texture callback of `useInstaxTexture`: no state update without both
   * sizes; otherwise the functional `setDimensions` keeps the previous object
   * when width, height and depth are all equal and replaces it otherwise.
   */
  function TextureLoaded(prev: InstaxDimensions, sourceWidth: real, sourceHeight: real): (r: DimensionsUpdate)
    ensures (sourceWidth == 0.0 || sourceHeight == 0.0) ==> r == DimensionsUpdate(prev, false)
    ensures sourceWidth != 0.0 && sourceHeight != 0.0 ==>
              r.dimensions == LoadedDimensions(sourceWidth, sourceHeight).value
              && (r.replaced <==> prev != r.dimensions)
    ensures !r.replaced ==> r.dimensions == prev
  {
    match LoadedDimensions(sourceWidth, sourceHeight)
    case None => DimensionsUpdate(prev, false)
    case Some(next) =>
      if prev.width == next.width && prev.height == next.height && prev.depth == next.depth
      then DimensionsUpdate(prev, false)
      else DimensionsUpdate(next, true)
  }

  /** The default dimensions are a 3:4 portrait of height 3.8 and depth 0.1. */
  lemma DefaultDimensionsValues()
    ensures DIMENSIONS == InstaxDimensions(2.85, 3.8, 0.1)
    ensures DIMENSIONS.width * 4.0 == DIMENSIONS.height * 3.0
  {
  }

  /** A 3:4 portrait photo leaves the default dimensions in place; a landscape one replaces them. */
  lemma TextureAspectAgainstDefault(sourceWidth: real, sourceHeight: real)
    requires sourceWidth > 0.0 && sourceHeight > 0.0
    ensures (TextureLoaded(DIMENSIONS, sourceWidth, sourceHeight).replaced
             <==> sourceWidth * 4.0 != sourceHeight * 3.0)
  {
  }

  /** The card around the default photo. */
  lemma DefaultCardMetrics()
    ensures CalculateCardMetrics(DIMENSIONS) == CardMetrics(3.25, 4.44, 3.47, 6.16)
  {
  }
}
