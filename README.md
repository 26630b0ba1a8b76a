# nv-video-info, modelled in Dafny

nv-video-info is a pair of command-line reporters over NVIDIA's video SDK.
`nvencinfo` opens an NVENC encode session and prints, for every codec the driver
offers, which input buffer formats it accepts, its limits and capabilities, and
its profiles and presets, side by side in fixed-width columns. `nvdecinfo` asks
the decoder about every codec × chroma format × bit depth and prints one line
per supported combination.

This project models the core of both reporters: the identifier catalog and its
lookups (status codes, capability keys, buffer-format flags, profile and preset
GUIDs, each table gated by the NVENC API version the program is built against),
the table builders of the encode report, and the decode enumeration. The driver
is an oracle: an encode `Session` holds the driver's answer to every query
(status plus the values it wrote back), and the decoder is a function from a
`DecodeQuery` to a `DecodeCaps`. The encode report is modelled as the sequence
of lines written to standard output. Decode rows are kept as `DecodeRow`
records, and `Decode.RowText` gives the line each one prints.

Modules, one file each:

- `Layout` (`layout.dfy`) — `printf` widths (`%Ns`, `%d`), the 37 + 12·n
  rules, `print_header`, and the `%35s |` / `%10s |` table rows.
- `Catalog` (`catalog.dfy`) — `NVENCAPI_CHECK_VERSION`, the driver version word,
  `nvenc_errors` with `nvenc_map_error` and `check_nv`, `nvenc_limits`,
  `nvenc_caps`, `nvenc_formats`, `nvenc_profiles`, `nvenc_presets`, GUID
  resolution (the last match wins) and the codec headings of `print_codecs`.
- `Encode` (`encode.dfy`) — `print_formats`, `get_cap`, `print_caps`,
  `get_profiles` / `get_presets` (filling a caller's array in place),
  `print_profiles` / `print_presets`, and `print_codecs`, each a method proved
  against a function that states the section it prints.
- `Decode` (`decode.dfy`) — `get_caps` with its two name switches and the
  unsigned `bit_depth - 8`, and `main`'s triple loop, proved to probe every
  point exactly once in codec, chroma, depth order and to print exactly the
  supported points.

Behaviour worth noting:

- A failed decode probe does not stop `nvdecinfo`; `err` is simply overwritten
  (nvdecinfo.c:104).
- A failed capability query does not abort the encode report; `get_cap` returns
  -1 and that is printed (nvencinfo.c:561-571).
- A decode codec outside the switch is given no name at all rather than
  "Unknown" (nvdecinfo.c:28-62).

## Model

| member | source | states |
|---|---|---|
| Layout.PadLeft | nvencinfo.c:441 | `%Ns` right-aligns in at least N characters, never truncates: length max(N, len), the text as suffix, blanks before it |
| Layout.NatToText | nvencinfo.c:582 | `%d` of a non-negative value: decimal digits only, at least one, no leading zero |
| Layout.IntToText | nvencinfo.c:582 | `%d` starts with '-' exactly for negative values |
| Layout.NatToTextRoundTrip | nvencinfo.c:582 | reading the printed digits back gives the number |
| Layout.IntToTextRoundTrip | nvencinfo.c:582 | reading a printed `%d` back gives the value, negatives included |
| Layout.Cell | nvencinfo.c:443 | `%10s \|` is the text padded to 10 (or its own width) followed by " \|" |
| Layout.CellsWidth | nvencinfo.c:442-444 | n cells whose texts fit take exactly 12·n characters |
| Layout.CellsAtLeast | nvencinfo.c:442-444 | n cells take at least 12·n characters: a long text pushes the row right |
| Layout.RowWidth | nvencinfo.c:440-446 | a row is at least 37 + 12·n wide, and exactly that when label and cells fit |
| Layout.PrintRow | nvencinfo.c:441-445 | the row loop prints the label then each cell in order: the row function |
| Layout.Rule | nvencinfo.c:390-404 | `print_divider` / `print_thick_divider`: 37 + 12·count copies of the fill character and nothing else |
| Layout.Header | nvencinfo.c:406-412 | `print_header`: the text, then count blank 12-character cells; length len(text) + 12·count |
| Layout.RulesMatchRows | nvencinfo.c:390-412 | a rule is exactly as wide as a fitting row of the same table |
| Catalog.CheckVersion | nvencinfo.c:326-327 | the build is at least major.minor: a smaller major always passes, a larger one never does, and an equal major passes exactly when the minor is at most the build's |
| Catalog.CheckVersionIsTotalOrder | nvencinfo.c:326-327 | the version check is reflexive and transitive, and either version is at most the other (lexicographic order) |
| Catalog.GuardsAreVersionChecks | nvencinfo.c:143-207 | each hand-written (here and at line 84) `MAJOR > a \|\| (MAJOR == a && MINOR > b)` guard is the version check at the next version up |
| Catalog.UnpackVersion | nvencinfo.c:370 | major is `v >> 4`, minor is `v & 0xf`, and packing them again gives v |
| Catalog.PackUnpack | nvencinfo.c:370-372 | packing a version and unpacking it are inverse |
| Catalog.DriverAcceptsIsVersionCheck | nvencinfo.c:372 | the driver accepts the build exactly when the build's version is at most the driver's maximum |
| Catalog.FindError | nvencinfo.c:92-99 | the scan finds the first entry with the status, or none when no entry has it |
| Catalog.ErrorTableShape | nvencinfo.c:53-87 | entry k has status k; success maps to 0, every other listed status to -1; NEED_MORE_OUTPUT only from API 12.1 |
| Catalog.MapError | nvencinfo.c:90-103 | a listed status gives its entry's code and description, any other gives -1 and "unknown error" |
| Catalog.MapErrorZeroIffSuccess | nvencinfo.c:90-103 | `nvenc_map_error` returns 0 exactly for NV_ENC_SUCCESS, with "success" |
| Catalog.NeedMoreOutputIsGated | nvencinfo.c:84-86 | status 26 maps to "need more output" from API 12.1 and to "unknown error" before |
| Catalog.CheckNv | nvencinfo.c:105-122 | 0 exactly for NV_ENC_SUCCESS, -1 for any other status |
| Catalog.Diagnostic | nvencinfo.c:115-119 | the standard-error line is "<call> failed -> " followed by the error table's description of the status, or "unknown error" for a status the table does not list |
| Catalog.FormatsFailureThroughCheckNv | nvencinfo.c:632 | `print_formats`' -1 through `check_nv` stops the run with -1 and "unknown error" |
| Catalog.LimitTableSize | nvencinfo.c:132-149 | `nvenc_limits` has 10 rows plus one from API 11.0 and one from API 12.2 |
| Catalog.CapTableSize | nvencinfo.c:151-211 | `nvenc_caps` has 37 rows plus 2 (11.1), 4 (12.1), 2 (12.2) and 2 (13.0) |
| Catalog.LimitLabelsFit | nvencinfo.c:132-149 | every limit label fits the 35-character label column |
| Catalog.CapLabelsFit | nvencinfo.c:151-211 | every capability label fits the 35-character label column |
| Catalog.FormatFlags | nvencinfo.c:213-233 | before API 13 every format is a single bit; NV16 and P210 are not, and share bits with NV12 and U8 |
| Catalog.LastMatch | nvencinfo.c:461-468 | the scan without `break` ends on the last entry whose GUID matches, or finds none |
| Catalog.Resolve | nvencinfo.c:461-471 | a GUID gets the name of some entry listing it, or "Unknown" when no entry lists it |
| Catalog.ResolveSpec | nvencinfo.c:455-474 | in `get_profiles` and likewise `get_presets`, a GUID gets the last matching entry's name, and "Unknown" exactly when no entry matches |
| Catalog.CodecLabel | nvencinfo.c:616-629 | a 12-character heading ending in '\|'; "Unknown" exactly when the GUID is not H264, HEVC or (from API 12) AV1 |
| Encode.OrAllMeets | nvencinfo.c:431-443 | the OR of the reported formats meets a flag exactly when some reported format does |
| Encode.SingleBitFormatsMeet | nvencinfo.c:443 | with single-bit flags, a cell is marked exactly when that very format was reported |
| Encode.Nv12MarksNv16 | nvencinfo.c:229-232 | any codec reporting NV12 or U8 is marked for NV16, and any codec reporting U8 for P210, even though it never reported them |
| Encode.FormatCellsSpec | nvencinfo.c:440-446 | cell (i, j) is "x" exactly when codec j reported a format sharing a bit with catalog format i, "." otherwise |
| Encode.FormatRowsAligned | nvencinfo.c:440-446 | every format row is exactly as wide as the dividers |
| Encode.AccumulateFormats | nvencinfo.c:431-433 | `formats_for_guid[i] \|= formats[j]` leaves the OR of the reported formats in slot i and no other slot changed |
| Encode.QueryFormats | nvencinfo.c:416-436 | succeeds exactly when every format query succeeds, and then yields each codec's OR-ed mask |
| Encode.PrintFormatRows | nvencinfo.c:440-446 | one row per catalog format, in catalog order, a mark per codec |
| Encode.PrintFormats | nvencinfo.c:414-452 | nothing and -1 on a failed query, else header, divider, the rows and a divider, and 0 |
| Encode.GetCap | nvencinfo.c:561-571 | the driver's value, or -1 when the query fails |
| Encode.CapTextsReadBack | nvencinfo.c:578-584 | each capability cell reads back as the driver's value, or -1 for a failed query |
| Encode.CapsSectionShape | nvencinfo.c:574-600 | limits header and divider, a row per limit, divider, capabilities header and divider, a row per capability |
| Encode.PrintCapRows | nvencinfo.c:578-597 | one row per key with one `get_cap` cell per codec |
| Encode.PrintCaps | nvencinfo.c:574-600 | prints the caps section and always returns 0 |
| Encode.GetNames | nvencinfo.c:455-474 | for `get_profiles` and likewise `get_presets`: on success slot i < count holds the resolved name of GUID i and later slots are untouched; on failure -1 and nothing written |
| Encode.MaxCount | nvencinfo.c:485-490 | `max` bounds every column length, is attained by one column, and is 0 with no codecs |
| Encode.Transpose | nvencinfo.c:492-502 | the grid has max rows of one cell per codec |
| Encode.TransposeRoundTrip | nvencinfo.c:492-502 | every grid column reads back as exactly that codec's names, in order |
| Encode.TransposeRowsFilled | nvencinfo.c:492 | no grid row is entirely blank |
| Encode.QueryNames | nvencinfo.c:487-490 | succeeds exactly when every query succeeds, and then yields each codec's names and their maximum count |
| Encode.PrintNameRows | nvencinfo.c:492-502 | one row per index below max: codec j's i-th name when i < count[j], else a blank cell |
| Encode.NamesSectionShape | nvencinfo.c:477-505 | divider, header, divider, then exactly max rows with 0, or no rows and -1 when a query failed |
| Encode.PrintNameColumns | nvencinfo.c:477-505 | prints the names section of `print_profiles` and `print_presets` (failures reported): the section function |
| Encode.PrintProfiles | nvencinfo.c:477-505 | `print_profiles` over the profile catalog |
| Encode.PrintPresets | nvencinfo.c:530-558 | `print_presets` over the preset catalog |
| Encode.FailedNamesQueryDropped | nvencinfo.c:487-504 | for every set of replies, as written the section returns 0 and prints a failed codec's column from its leftover count and names; the corrected section returns -1 when any query fails; the two are equal when every query succeeds |
| Encode.QueryColumnAsWritten | nvencinfo.c:488 | one codec's column as written: the resolved names when get_* succeeds, the leftover buffer contents when it fails, its return value dropped |
| Encode.QueryNamesAsWritten | nvencinfo.c:487-490 | the query loop as written visits every codec whatever the earlier ones answered, and yields the as-written columns and their maximum |
| Encode.PrintNamesAsWritten | nvencinfo.c:477-505 | `print_profiles` / `print_presets` as written: head lines, the as-written grid, and 0 |
| Encode.CodecLabelsWidth | nvencinfo.c:617-629 | the headings take 12 characters per codec |
| Encode.CodecBannerWidth | nvencinfo.c:615-631 | the "Codec \|" line is exactly as wide as the thick dividers around it |
| Encode.CodecLabelsAt | nvencinfo.c:617-629 | heading j sits at characters 12j to 12j+12 and is the label of GUID j, in driver order |
| Encode.PrintCodecLabels | nvencinfo.c:616-630 | the label loop prints "Codec \|" and one heading per GUID |
| Encode.EncodeReportOutcome | nvencinfo.c:603-641 | with the corrected names sections, `print_codecs` returns 0 exactly when every query except `get_cap`'s succeeded and -1 otherwise; nothing is printed when the codec list cannot be read |
| Encode.EncodeReportShape | nvencinfo.c:615-636 | a complete report opens and closes with a thick divider and has one line per banner line, catalog entry, framing line and name row |
| Encode.PrintCodecs | nvencinfo.c:603-641 | prints the encode report and returns its status |
| Decode.CodecName | nvdecinfo.c:28-62 | a name exactly for enumerators 0..10 |
| Decode.ChromaName | nvdecinfo.c:65-78 | a three-character name exactly for chroma formats 0..3 |
| Decode.CodecNamesDistinct | nvdecinfo.c:28-62 | distinct codecs print distinct names |
| Decode.ChromaNamesDistinct | nvdecinfo.c:65-78 | distinct chroma formats print distinct names |
| Decode.BitDepthMinus8 | nvdecinfo.c:16 | `bit_depth - 8` in unsigned arithmetic: b - 8 from 8 up, wrapped below 8 |
| Decode.GetCaps | nvdecinfo.c:8-84 | returns the driver's error; prints a row exactly when the driver answered and reported the combination supported, carrying both names and the depth |
| Decode.GetCapsSpec | nvdecinfo.c:8-84 | the query carries b - 8; a row exactly for a supported point, carrying its depth, maxima and the two switch names (unset outside the switches); the return value is the driver's error, else 0 |
| Decode.AsSigned32 | nvdecinfo.c:80-81 | `%d` of an unsigned value prints its signed 32-bit reading |
| Decode.RowText | nvdecinfo.c:80-81 | the printed row is never narrower than the 47-character title |
| Decode.RowTextWidth | nvdecinfo.c:80-81 | a row whose fields fit is exactly as wide as the 47-character title and rule |
| Decode.CodecPointsAt | nvdecinfo.c:101-107 | probe i is codec i/12, chroma (i mod 12)/3, depth 8 + 2(i mod 3) |
| Decode.ProbingOrder | nvdecinfo.c:101-107 | 12 probes per codec; probe i is a valid point of rank i, and every valid point is probed at its rank: each exactly once |
| Decode.RankIsLexicographic | nvdecinfo.c:101-103 | rank order is codec-major, then chroma, then depth |
| Decode.RowsOfAppend | nvdecinfo.c:101-107 | the rows of two probe runs are the rows of each, in order |
| Decode.RowsOfSpec | nvdecinfo.c:101-107 | one row per supported probe, and every row comes from a supported probe |
| Decode.RowsNamed | nvdecinfo.c:28-78 | with at most 11 codecs, every printed row has both names |
| Decode.ProbeDepths | nvdecinfo.c:103-105 | the depth loop probes 8, 10, 12 in order and leaves the last result in `err` |
| Decode.ProbeChromas | nvdecinfo.c:102-106 | the chroma loop probes formats 0..3, each with its three depths |
| Decode.Enumerate | nvdecinfo.c:99-107 | the two head lines, exactly the probes of the enumeration in order whatever the driver answers, and exactly their rows |
| Decode.RowsBound | nvdecinfo.c:101-107 | at most one row per probe, and none from a driver that supports nothing |

## Left out

- Library loading, the driver-requirement message, CUDA initialisation, device
  and context handling, and opening and destroying the encode session
  (nvencinfo.c:329-388, nvencinfo.c:644-697, nvdecinfo.c:86-97, nvdecinfo.c:109-111)
  are foreign calls; the driver appears only as the `Session` and `Oracle` answers.
- `check_cu` and its CUDA error strings (nvencinfo.c:30-51) are foreign lookups
  used only for standard-error text.
- `malloc` and `calloc` failures and the buffers leaked on early return are not
  modelled; allocation always succeeds.
- Standard error is not part of the printed lines; `Catalog.Diagnostic` states
  the line `check_nv` writes there.
- The SDK header nvEncodeAPI.h is not part of this model. Its GUIDs stay symbolic
  (`SdkGuid` by name, equal exactly when the names are equal), and the format
  flags take the header's values (NV16 = 0x40000001, P210 = 0x40000002).
- The nine legacy preset GUIDs use the literal values nvencinfo.c:260-299 writes
  out; builds before API 12.1 take the same values from the header.
- The capability entry under `#if 0` (nvencinfo.c:186-189) is in no build and is
  not in the table.
- Encode.PrintNameColumns: stops at the first failed `get_profiles` /
  `get_presets` and returns -1 after the three head lines; as written the source
  carries on with a count that may be unset (see Findings).
- Encode.QueryColumnAsWritten: requires the leftover count to be at most the
  buffer size; a larger stale count makes the source read past its array, which
  C leaves undefined.
- Encode.PrintCodecs: uses the corrected names sections; the as-written ones are
  `Encode.PrintNamesAsWritten`, compared with them in `Encode.FailedNamesQueryDropped`.
- Encode.GetNames: requires the driver to return no more GUIDs than the buffer
  holds, since the source tells the driver that capacity (nvencinfo.c:458-459).
- Catalog.DriverAcceptsIsVersionCheck: assumes a build minor version below 16,
  since the packed word keeps four bits for it.
- Decode.RowText: text, and so `Decode.RowTextWidth`, is only defined for rows whose names are set; with
  an enumerator beyond the switch (AV1 in newer SDKs) the source prints an
  unset pointer.
- `cudaVideoCodec_NumCodecs` comes from the SDK header, so the number of codecs
  is a parameter of `Decode.Enumerate`.

## Findings

| source | as written | input that shows it | evidently intended | confidence | as-written member | corrected member |
|---|---|---|---|---|---|---|
| nvencinfo.c:488 | `print_profiles` and `print_presets` (line 541) call `get_profiles` / `get_presets` for their side effect and drop the -1, then read `profileCount[i]` and the names, possibly unset since the driver may fail before writing them | a codec whose `nvEncGetEncodeProfileGUIDs` returns NV_ENC_ERR_INVALID_PARAM | the failure propagated like every other query (`CHECK_NV(get_profiles(...))`), so the report stops with -1 | high; not executed | Encode.FailedNamesQueryDropped | Encode.NamesSectionShape |
