# Poster size and frame field editor: verified model of its logic

The widget is a custom field editor for a content platform. For every poster
referenced by the entry being edited it shows a panel with a size choice and a
frame choice. Apart from rendering, its source (`src/index.tsx`) holds three
small pieces of logic, which this project models and proves things about:

- **Size labels** (`SizeLabel`, `size_label.dfy`). `stringifySize` writes a size
  as `"<width>x<height>"` and `parseSize` splits a label at every `x`. Widths
  and heights are natural numbers. `NatToString` is the decimal text that
  template interpolation produces for a natural number up to 2^53, and
  `DecimalValue` reads it back. `Split` is
  `String.prototype.split` with a one-character separator, and `Join` is its
  inverse. The main result is that parsing a label gives exactly the two
  decimal texts of the width and the height. So two different sizes never
  share a label.
- **Poster assembly** (`Posters`, `posters.dfy`). `buildPosters` walks the
  fetched poster entries with the accumulator recursion `iter`. For each entry
  it reads the `en-US` values of the entry's localized fields, looks up the
  preview asset, and builds a `Poster` view model. The asset lookup is a
  parameter `getAsset: string -> Option<AssetEntry>`, and localized fields are
  `map`s from locale to value. The proofs show that the result has one poster
  per entry, in order, with each field copied unchanged. They also show that
  one failing entry makes the whole assembly fail.
- **Fetch lifecycle** (`Fetching`, `fetching.dfy`). `usePosters` holds a
  `FetchingState` (Idle, Loading, Success or Error) and a poster list.
  `fetchPosters` updates both. Here they are the class `PostersFetcher`, with
  fields `state` and `data` and the methods `Start`, `Resolve`, `Reject` and
  `FetchPosters`. The entry lookup (`Promise.all` over `getEntry`) is the
  function `FetchEntries` over a parameter
  `getEntry: string -> Option<PosterEntry>`.
- **Initial values** (`Settings`, `settings.dfy`). The settings list the editor
  starts from and the offered frame colours. The initial size 50 x 70 is
  `SizeLabel.InitialSize`.

`Wrappers` (`wrappers.dfy`) defines `Option`, which models both a missing
key (`undefined`) and a lookup that fails.

Three behaviours of the code worth noting:

- Reading `entry.fields.title[locale]` for a missing locale yields `undefined`
  and does not throw. So `Poster.title` is an `Option<string>`, and a title
  missing in `en-US` does not make the assembly fail. A missing preview link, sizes value,
  asset or asset file does make it fail, because each of those is
  dereferenced further.
- On a failed fetch the code sets Error and does not clear `data`. So `Reject`
  keeps the previous posters.
- A per-poster settings store (set size, set frame, reconciliation against
  the poster list) does not exist in this code. The only settings logic is
  the initial value.

## Model

| member | source | states |
|---|---|---|
| SizeLabel.InitialSize | src/index.tsx:31 | the initial size is width 50, height 70 |
| SizeLabel.NatToString | src/index.tsx:33 | the interpolated text of a natural is a canonical decimal (at least one digit, no leading zero) and contains no `x` |
| SizeLabel.DecimalValueOfNatToString | src/index.tsx:33 | reading back the decimal text of `n` gives `n` |
| SizeLabel.NatToStringOfDecimalValue | src/index.tsx:33 | every canonical decimal text is the text of its own value, so the text is a bijection onto canonical decimals |
| SizeLabel.NatToStringInjective | src/index.tsx:33 | different numbers have different texts |
| SizeLabel.Split | src/index.tsx:34 | `split` gives at least one piece and no piece contains the separator |
| SizeLabel.JoinSplit | src/index.tsx:34 | joining the pieces of a split with the separator restores the string |
| SizeLabel.SplitJoin | src/index.tsx:34 | splitting a join of separator-free pieces gives back exactly those pieces |
| SizeLabel.ParseSize | src/index.tsx:34 | `parseSize` gives separator-free pieces whose join is the input |
| SizeLabel.StringifySize | src/index.tsx:33 | the label parses back into exactly two pieces, the decimal text of the width and that of the height |
| SizeLabel.ParseStringifySize | src/index.tsx:33-34 | `parseSize(stringifySize(w, h))` is exactly the two texts of `w` and `h`, which read back as `w` and `h` |
| SizeLabel.StringifySizeInjective | src/index.tsx:33 | two sizes with the same label are the same size, so labels are unique radio keys |
| Posters.BuildPoster | src/index.tsx:104-108 | the view model carries exactly the given id, title, preview URL, orientation and sizes |
| Posters.AssembleOne | src/index.tsx:114-122 | one step of `iter` succeeds exactly when the preview link, the asset, its file and the sizes value all exist; the poster then has the entry's id and `en-US` title, the asset file URL, and the `en-US` sizes and orientation |
| Posters.Iter | src/index.tsx:111-125 | `iter(acc, list)` succeeds exactly when every element assembles; the result is then `acc` followed by one poster per element, in order |
| Posters.BuildPosters | src/index.tsx:110-130 | `buildPosters` succeeds exactly when every entry is assemblable, and then returns one poster per entry in input order |
| Posters.BuildPostersUnique | src/index.tsx:110-130 | any list that matches the entries one for one is the result, so nothing is reordered, dropped or added |
| Posters.BuildPostersCopiesFields | src/index.tsx:104-122 | the i-th poster carries the i-th entry's id, `en-US` title, sizes, orientation and the preview asset's `en-US` file URL |
| Posters.BuildPostersAllOrNothing | src/index.tsx:112-124 | one entry that cannot be assembled makes the whole assembly fail |
| Posters.BuildPostersAppend | src/index.tsx:111-125 | assembling `front + back` gives the assembly of `front` followed by that of `back` |
| Fetching.FetchEntries | src/index.tsx:154-163 | fetching all referenced entries succeeds exactly when every lookup does, and then yields the entries in reference order |
| Fetching.FetchOutcome | src/index.tsx:162-171 | the `try` block succeeds exactly when every reference can be fetched and every fetched entry assembled, and then yields one poster per reference, in order, each the assembly of that reference's entry |
| Fetching.FetchOutcomeOrder | src/index.tsx:154-164 | a successful fetch yields one poster per reference, in reference order, each with the fetched entry's id |
| Fetching.FetchOutcomeFails | src/index.tsx:162-171 | the fetch fails exactly when some reference cannot be fetched or some fetched entry cannot be assembled |
| Fetching.PostersFetcher.constructor | src/index.tsx:148-149 | the hook starts Idle with an empty poster list |
| Fetching.PostersFetcher.Snapshot | src/index.tsx:178-191 | the hook's result has one flag per state, exactly one of them set, and the current posters |
| Fetching.PostersFetcher.Start | src/index.tsx:160 | starting a fetch sets Loading and keeps the posters |
| Fetching.PostersFetcher.Resolve | src/index.tsx:166-168 | a resolved fetch replaces the posters and sets Success |
| Fetching.PostersFetcher.Reject | src/index.tsx:169-171 | a failed fetch sets Error and leaves the posters untouched |
| Fetching.PostersFetcher.FetchPosters | src/index.tsx:159-172 | `fetchPosters` ends in Success with the assembled posters, or in Error with the previous posters when a lookup or the assembly fails |
| Fetching.FailThenSucceed | src/index.tsx:147-171 | from a fresh hook, a failed fetch shows Error with no posters, and a later successful one shows Success with exactly its posters |
| Settings.FramesOffersEveryColour | src/index.tsx:22-24 | every frame colour is offered, each exactly once |
| Settings.InitialSettings | src/index.tsx:195-203 | the editor starts from the stored settings list when the field holds one, otherwise from the empty list |

## Left out

- Rendering: the JSX panels, skeletons and radio buttons (`src/index.tsx:251-322`) and the `ReactDOM.render`/`init` bootstrap are pure view.
- The space API: `getEntry`, `getAsset`, `field.getValue` and `entry.fields.posters.getValue` are network or host calls. They become function parameters (`getEntry`, `getAsset`), the `references` argument of `FetchPosters` (for `entry.fields.posters.getValue`), or the argument `stored` of `InitialSettings` (for `field.getValue`). The auto-resizer and the `console.log` have no logical content.
- Concurrency: `Promise.all` is modelled by its outcome only (all entries in order, or failure). Its issuing of requests in parallel is not modelled.
- React re-run semantics: the re-run of `useMemo`, `useCallback` and `useEffect` when the reference list changes is not modelled. Neither is the race where an overlapping older fetch overwrites a newer result. For this reason `Resolve` and `Reject` do not require the Loading state.
- Entries whose `fields.title`, `fields.previewSmall` or `fields.sizes` object is missing entirely, and a sizes value without `sizes` or `orientation`: each entry is modelled with all three fields present (a field may have no `en-US` key).
- Number formatting: fractional and float sizes, and lodash `toNumber`/`get`, are not modelled. Sizes are natural numbers.
- SizeLabel.StringifySizeInjective: widths and heights are unbounded naturals, while the source's are doubles. Those print in exponent form from 10^21 on ("1e+21") and are inexact above 2^53, where two different naturals can be the same number and share a label. Between 2^53 and 10^21 the label can differ from `NatToString` even for a number stored exactly, because JavaScript prints the shortest digits that read back as the same number, padded with zeros (`${2**64}` is "18446744073709552000"). The injectivity and round trip hold for the model's naturals only.
- Fetching.PostersFetcher.FetchPosters: an empty posters field, where `postersField.getValue()` (`src/index.tsx:152`) is `undefined`, is not modelled. `references` is always a list. In the source, `postersEntries.map` (`src/index.tsx:154`) then throws during render, outside the `try`, and the hook never reaches Error.
- Dead code: the commented-out `onSave`, `onChange` and orientation handler (`src/index.tsx:205-249`).
- Settings.InitialSettings: JavaScript truthiness is modelled as present or absent. A stored non-array value is not distinguished.
