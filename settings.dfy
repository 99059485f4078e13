/** The widget's own field value: one size and frame selection per poster,
    and the value the editor starts from. */
module Settings {
  import opened Wrappers
  import opened SizeLabel

  datatype FrameColor = White | Black | Wood | NoFrame

  /** The frame colours offered, in display order. */
  const Frames: seq<FrameColor> := [White, Black, Wood, NoFrame]

  datatype PosterSettingsItem = PosterSettingsItem(size: Size, frame: FrameColor)

  /** Every frame colour is offered, each exactly once. */
  lemma FramesOffersEveryColour(f: FrameColor)
    ensures f in Frames
    ensures forall i, j :: 0 <= i < j < |Frames| ==> Frames[i] != Frames[j]
  {
  }

  /** `sdkValue ? sdkValue : []`: the stored list when the field holds one
      (an array is truthy even when empty), otherwise no settings. */
  function InitialSettings(stored: Option<seq<PosterSettingsItem>>): (settings: seq<PosterSettingsItem>)
    ensures stored.Some? ==> settings == stored.value
    ensures stored.None? ==> settings == []
  {
    match stored
    case Some(value) => value
    case None => []
  }
}
