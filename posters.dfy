/** Poster assembly: fetched poster entries, whose fields are maps from locale
    to value, become poster view models. Each entry needs one asset lookup for
    its small preview image; that lookup is a parameter `getAsset` (the space
    API), which either yields the asset or fails. */
module Posters {
  import opened Wrappers
  import opened SizeLabel

  /** The only locale the widget reads. */
  const Locale: string := "en-US"

  datatype Orientation = Portrait | Landscape | Square

  /** A link to another entry or asset: `{ sys: { id, linkType, type } }`. */
  datatype Link = Link(id: string, linkType: string, linkKind: string)

  /** The value of a poster's `sizes` field in one locale. */
  datatype SizesValue = SizesValue(sizes: seq<Size>, orientation: Orientation)

  /** A fetched poster entry: its id and its three localized fields. */
  datatype PosterEntry = PosterEntry(
    id: string,
    title: map<string, string>,
    previewSmall: map<string, Link>,
    sizes: map<string, SizesValue>)

  /** A fetched asset: its id and its localized file URLs. */
  datatype AssetEntry = AssetEntry(id: string, fileUrl: map<string, string>)

  /** The view model of one poster. A title missing in the locale is carried as
      `None`, as reading an absent key yields `undefined` rather than failing. */
  datatype Poster = Poster(
    id: string,
    title: Option<string>,
    previewSmall: string,
    orientation: Orientation,
    sizes: seq<Size>)

  /** `buildPoster`: the view model made of exactly the given parts. */
  function BuildPoster(id: string, title: Option<string>, previewSmall: string,
                       orientation: Orientation, sizes: seq<Size>): (p: Poster)
    ensures p.id == id && p.title == title && p.previewSmall == previewSmall
    ensures p.orientation == orientation && p.sizes == sizes
  {
    Poster(id, title, previewSmall, orientation, sizes)
  }

  /** Reading `m[key]`, which is `undefined` when the key is absent. */
  function Lookup<K, V>(m: map<K, V>, key: K): (r: Option<V>)
    ensures r.Some? <==> key in m
    ensures r.Some? ==> r.value == m[key]
  {
    if key in m then Some(m[key]) else None
  }

  /** Whether every read in one step of the assembly succeeds: the locale's
      preview link, the asset it names, that asset's locale file, and the
      locale's sizes value. */
  predicate Assemblable(getAsset: string -> Option<AssetEntry>, entry: PosterEntry) {
    && Locale in entry.previewSmall
    && getAsset(entry.previewSmall[Locale].id).Some?
    && Locale in getAsset(entry.previewSmall[Locale].id).value.fileUrl
    && Locale in entry.sizes
  }

  /** One step of `iter`: the view model of the first entry, or `None` where the
      source throws (a missing link, sizes value or file, or a failed lookup). */
  function AssembleOne(getAsset: string -> Option<AssetEntry>, entry: PosterEntry): (r: Option<Poster>)
    ensures r.Some? <==> Assemblable(getAsset, entry)
    ensures r.Some? ==>
      && r.value.id == entry.id
      && r.value.title == Lookup(entry.title, Locale)
      && r.value.previewSmall == getAsset(entry.previewSmall[Locale].id).value.fileUrl[Locale]
      && r.value.sizes == entry.sizes[Locale].sizes
      && r.value.orientation == entry.sizes[Locale].orientation
  {
    var title := Lookup(entry.title, Locale);
    match Lookup(entry.previewSmall, Locale)
    case None => None
    case Some(link) =>
      match getAsset(link.id)
      case None => None
      case Some(asset) =>
        match Lookup(asset.fileUrl, Locale)
        case None => None
        case Some(file) =>
          match Lookup(entry.sizes, Locale)
          case None => None
          case Some(value) =>
            Some(BuildPoster(entry.id, title, file, value.orientation, value.sizes))
  }

  /** `iter(acc, list)`: appends one view model per entry of `list` to `acc`,
      first to last, and fails as a whole as soon as one entry fails. */
  function Iter(getAsset: string -> Option<AssetEntry>, acc: seq<Poster>, list: seq<PosterEntry>)
    : (r: Option<seq<Poster>>)
    ensures r.Some? <==> forall i :: 0 <= i < |list| ==> AssembleOne(getAsset, list[i]).Some?
    ensures r.Some? ==>
      && |r.value| == |acc| + |list|
      && r.value[..|acc|] == acc
      && forall i :: 0 <= i < |list| ==> AssembleOne(getAsset, list[i]) == Some(r.value[|acc| + i])
    decreases |list|
  {
    if |list| == 0 then Some(acc)
    else
      match AssembleOne(getAsset, list[0])
      case None => None
      case Some(poster) =>
        var r := Iter(getAsset, acc + [poster], list[1..]);
        assert forall i :: 1 <= i < |list| ==> list[i] == list[1..][i - 1];
        r
  }

  /** `buildPosters(data)`: the view models of all entries, in order, or `None`
      if any entry cannot be assembled. */
  function BuildPosters(getAsset: string -> Option<AssetEntry>, data: seq<PosterEntry>)
    : (r: Option<seq<Poster>>)
    ensures r.Some? <==> forall i :: 0 <= i < |data| ==> Assemblable(getAsset, data[i])
    ensures r.Some? ==>
      && |r.value| == |data|
      && forall i :: 0 <= i < |data| ==> AssembleOne(getAsset, data[i]) == Some(r.value[i])
  {
    Iter(getAsset, [], data)
  }

  /** The result is the only list of view models that matches the entries one
      for one: the assembly neither reorders, drops nor invents posters. */
  lemma BuildPostersUnique(getAsset: string -> Option<AssetEntry>, data: seq<PosterEntry>,
                           posters: seq<Poster>)
    requires |posters| == |data|
    requires forall i :: 0 <= i < |data| ==> AssembleOne(getAsset, data[i]) == Some(posters[i])
    ensures BuildPosters(getAsset, data) == Some(posters)
  {
    var r := BuildPosters(getAsset, data);
    assert r.Some?;
    assert r.value == posters;
  }

  /** The i-th poster carries the i-th entry's id and its locale values. */
  lemma BuildPostersCopiesFields(getAsset: string -> Option<AssetEntry>, data: seq<PosterEntry>, i: nat)
    requires BuildPosters(getAsset, data).Some?
    requires i < |data|
    ensures var p := BuildPosters(getAsset, data).value[i];
      && p.id == data[i].id
      && p.title == Lookup(data[i].title, Locale)
      && p.previewSmall == getAsset(data[i].previewSmall[Locale].id).value.fileUrl[Locale]
      && p.sizes == data[i].sizes[Locale].sizes
      && p.orientation == data[i].sizes[Locale].orientation
  {
    assert AssembleOne(getAsset, data[i]).Some?;
  }

  /** All or nothing: one entry that cannot be assembled makes the whole
      assembly fail, and no partial list comes out. */
  lemma BuildPostersAllOrNothing(getAsset: string -> Option<AssetEntry>, data: seq<PosterEntry>, i: nat)
    requires i < |data| && !Assemblable(getAsset, data[i])
    ensures BuildPosters(getAsset, data) == None
  {
  }

  /** Assembling a concatenation is assembling each part: the result for
      `front + back` is the result for `front` followed by that for `back`. */
  lemma {:induction false} BuildPostersAppend(getAsset: string -> Option<AssetEntry>,
                                              front: seq<PosterEntry>, back: seq<PosterEntry>)
    requires BuildPosters(getAsset, front).Some? && BuildPosters(getAsset, back).Some?
    ensures BuildPosters(getAsset, front + back)
         == Some(BuildPosters(getAsset, front).value + BuildPosters(getAsset, back).value)
  {
    var f := BuildPosters(getAsset, front).value;
    var b := BuildPosters(getAsset, back).value;
    var all := front + back;
    forall i | 0 <= i < |all| ensures AssembleOne(getAsset, all[i]) == Some((f + b)[i]) {
      if i < |front| {
        assert all[i] == front[i];
      } else {
        assert all[i] == back[i - |front|];
      }
    }
    BuildPostersUnique(getAsset, all, f + b);
  }
}
