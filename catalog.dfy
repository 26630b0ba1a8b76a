/** The identifier catalog of nvencinfo: the static tables that give names to
    NVENC status codes, capability keys, input buffer formats, profile GUIDs and
    preset GUIDs, the lookups over them, and the API-version gating that decides
    which entries a build has. */
module Catalog {

  datatype Option<T> = None | Some(value: T)

  // ---------------------------------------------------------------------
  // API versions

  /** An NVENC API version, as the pair NVENCAPI_MAJOR_VERSION, NVENCAPI_MINOR_VERSION.
      The version a build is made against is a parameter `api` of every table
      below: it replaces the compile-time `#if` guards. */
  datatype Version = Version(major: nat, minor: nat)

  /** NVENCAPI_CHECK_VERSION(major, minor) in a build against `api`. */
  predicate CheckVersion(api: Version, major: nat, minor: nat): (b: bool)
    ensures b ==> major <= api.major
    ensures major < api.major ==> b
    ensures major == api.major ==> (b <==> minor <= api.minor)
  {
    major < api.major || (major == api.major && minor <= api.minor)
  }

  /** The macro is the lexicographic order on (major, minor): it is a total order. */
  lemma CheckVersionIsTotalOrder(a: Version, b: Version, c: Version)
    ensures CheckVersion(a, a.major, a.minor)
    ensures CheckVersion(b, a.major, a.minor) && CheckVersion(a, b.major, b.minor) ==> a == b
    ensures CheckVersion(b, a.major, a.minor) && CheckVersion(c, b.major, b.minor)
            ==> CheckVersion(c, a.major, a.minor)
    ensures CheckVersion(b, a.major, a.minor) || CheckVersion(a, b.major, b.minor)
  {
  }

  /** Each `#if` of the tables, written as NVENCAPI_CHECK_VERSION. */
  lemma GuardsAreVersionChecks(api: Version)
    ensures (api.major > 10) <==> CheckVersion(api, 11, 0)
    ensures (api.major > 11) <==> CheckVersion(api, 12, 0)
    ensures (api.major > 12) <==> CheckVersion(api, 13, 0)
    ensures (api.major > 11 || (api.major == 11 && api.minor > 0)) <==> CheckVersion(api, 11, 1)
    ensures (api.major > 12 || (api.major == 12 && api.minor > 0)) <==> CheckVersion(api, 12, 1)
    ensures (api.major > 12 || (api.major == 12 && api.minor > 1)) <==> CheckVersion(api, 12, 2)
  {
  }

  /** A driver's maximum supported version, an unsigned 32-bit value. */
  type Uint32 = x: int | 0 <= x < 0x1_0000_0000

  /** The driver's packed version: major in `v >> 4`, minor in `v & 0xf`. */
  function UnpackVersion(v: Uint32): (r: Version)
    ensures r.minor < 16
    ensures r.major * 16 + r.minor == v
  {
    Version(v / 16, v % 16)
  }

  /** `(NVENCAPI_MAJOR_VERSION << 4 | NVENCAPI_MINOR_VERSION)`; with a minor below 16
      the `|` adds. */
  function PackVersion(ver: Version): int
    requires ver.minor < 16
  {
    ver.major * 16 + ver.minor
  }

  /** Unpacking then packing is the identity, and so is packing then unpacking. */
  lemma PackUnpack(v: Uint32, ver: Version)
    requires ver.minor < 16 && PackVersion(ver) < 0x1_0000_0000
    ensures PackVersion(UnpackVersion(v)) == v
    ensures UnpackVersion(PackVersion(ver)) == ver
  {
  }

  /** The load-time requirement check passes: the build's packed version is not
      above the driver's maximum. */
  predicate DriverAccepts(api: Version, maxVersion: Uint32)
    requires api.minor < 16
  {
    !(PackVersion(api) > maxVersion)
  }

  /** Comparing packed versions is the same as NVENCAPI_CHECK_VERSION on the
      driver's unpacked version. */
  lemma DriverAcceptsIsVersionCheck(api: Version, maxVersion: Uint32)
    requires api.minor < 16
    ensures DriverAccepts(api, maxVersion) <==> CheckVersion(UnpackVersion(maxVersion), api.major, api.minor)
  {
    var d := UnpackVersion(maxVersion);
    if api.major < d.major {
      assert PackVersion(api) <= (d.major - 1) * 16 + 15;
    } else if api.major > d.major {
      assert PackVersion(api) >= (d.major + 1) * 16;
    }
  }

  // ---------------------------------------------------------------------
  // NVENC status codes (NVENCSTATUS) and nvenc_errors

  type Status = int

  const NvEncSuccess: Status := 0
  const NvEncErrNoEncodeDevice: Status := 1
  const NvEncErrUnsupportedDevice: Status := 2
  const NvEncErrInvalidEncoderDevice: Status := 3
  const NvEncErrInvalidDevice: Status := 4
  const NvEncErrDeviceNotExist: Status := 5
  const NvEncErrInvalidPtr: Status := 6
  const NvEncErrInvalidEvent: Status := 7
  const NvEncErrInvalidParam: Status := 8
  const NvEncErrInvalidCall: Status := 9
  const NvEncErrOutOfMemory: Status := 10
  const NvEncErrEncoderNotInitialized: Status := 11
  const NvEncErrUnsupportedParam: Status := 12
  const NvEncErrLockBusy: Status := 13
  const NvEncErrNotEnoughBuffer: Status := 14
  const NvEncErrInvalidVersion: Status := 15
  const NvEncErrMapFailed: Status := 16
  const NvEncErrNeedMoreInput: Status := 17
  const NvEncErrEncoderBusy: Status := 18
  const NvEncErrEventNotRegistered: Status := 19
  const NvEncErrGeneric: Status := 20
  const NvEncErrIncompatibleClientKey: Status := 21
  const NvEncErrUnimplemented: Status := 22
  const NvEncErrResourceRegisterFailed: Status := 23
  const NvEncErrResourceNotRegistered: Status := 24
  const NvEncErrResourceNotMapped: Status := 25
  const NvEncErrNeedMoreOutput: Status := 26

  /** One row of nvenc_errors: the NVENC status, the libav-style return value, and its description. */
  datatype ErrorEntry = ErrorEntry(status: Status, averr: int, desc: string)

  function ErrorTable(api: Version): seq<ErrorEntry> {
    [ ErrorEntry(NvEncSuccess,                    0, "success"),
      ErrorEntry(NvEncErrNoEncodeDevice,         -1, "no encode device"),
      ErrorEntry(NvEncErrUnsupportedDevice,      -1, "unsupported device"),
      ErrorEntry(NvEncErrInvalidEncoderDevice,   -1, "invalid encoder device"),
      ErrorEntry(NvEncErrInvalidDevice,          -1, "invalid device"),
      ErrorEntry(NvEncErrDeviceNotExist,         -1, "device does not exist"),
      ErrorEntry(NvEncErrInvalidPtr,             -1, "invalid ptr"),
      ErrorEntry(NvEncErrInvalidEvent,           -1, "invalid event"),
      ErrorEntry(NvEncErrInvalidParam,           -1, "invalid param"),
      ErrorEntry(NvEncErrInvalidCall,            -1, "invalid call"),
      ErrorEntry(NvEncErrOutOfMemory,            -1, "out of memory"),
      ErrorEntry(NvEncErrEncoderNotInitialized,  -1, "encoder not initialized"),
      ErrorEntry(NvEncErrUnsupportedParam,       -1, "unsupported param"),
      ErrorEntry(NvEncErrLockBusy,               -1, "lock busy"),
      ErrorEntry(NvEncErrNotEnoughBuffer,        -1, "not enough buffer"),
      ErrorEntry(NvEncErrInvalidVersion,         -1, "invalid version"),
      ErrorEntry(NvEncErrMapFailed,              -1, "map failed"),
      ErrorEntry(NvEncErrNeedMoreInput,          -1, "need more input"),
      ErrorEntry(NvEncErrEncoderBusy,            -1, "encoder busy"),
      ErrorEntry(NvEncErrEventNotRegistered,     -1, "event not registered"),
      ErrorEntry(NvEncErrGeneric,                -1, "generic error"),
      ErrorEntry(NvEncErrIncompatibleClientKey,  -1, "incompatible client key"),
      ErrorEntry(NvEncErrUnimplemented,          -1, "unimplemented"),
      ErrorEntry(NvEncErrResourceRegisterFailed, -1, "resource register failed"),
      ErrorEntry(NvEncErrResourceNotRegistered,  -1, "resource not registered"),
      ErrorEntry(NvEncErrResourceNotMapped,      -1, "resource not mapped") ]
    + (if CheckVersion(api, 12, 1) then [ErrorEntry(NvEncErrNeedMoreOutput, -1, "need more output")] else [])
  }

  /** The scan of nvenc_map_error: the first entry with the given status, if any. */
  function FindError(table: seq<ErrorEntry>, status: Status): (r: Option<nat>)
    ensures r.Some? ==> r.value < |table| && table[r.value].status == status
                        && forall k :: 0 <= k < r.value ==> table[k].status != status
    ensures r.None? <==> forall k :: 0 <= k < |table| ==> table[k].status != status
  {
    if table == [] then None
    else if table[0].status == status then Some(0)
    else match FindError(table[1..], status)
      case None => None
      case Some(k) => Some(k + 1)
  }

  /** nvenc_map_error(err, &desc): a listed status gives its entry's return
      value and description, any other status -1 and "unknown error". */
  function MapError(api: Version, status: Status): (r: (int, string))
    ensures var table := ErrorTable(api);
            r == if 0 <= status < |table| then (table[status].averr, table[status].desc)
                 else (-1, "unknown error")
  {
    var table := ErrorTable(api);
    FindErrorAtStatus(api, status);
    match FindError(table, status)
    case Some(k) => (table[k].averr, table[k].desc)
    case None => (-1, "unknown error")
  }

  /** nvenc_errors lists the statuses in enum order: entry k is status k. Only
      NV_ENC_SUCCESS, the first, maps to 0; every other entry maps to -1. */
  lemma ErrorTableShape(api: Version)
    ensures |ErrorTable(api)| == 26 + (if CheckVersion(api, 12, 1) then 1 else 0)
    ensures ErrorTable(api)[0] == ErrorEntry(NvEncSuccess, 0, "success")
    ensures forall k :: 0 <= k < |ErrorTable(api)| ==> ErrorTable(api)[k].status == k
    ensures forall k :: 0 <= k < |ErrorTable(api)| ==> ErrorTable(api)[k].averr == if k == 0 then 0 else -1
  {
  }

  /** Since entry k lists status k, the scan for a status stops at its own index. */
  lemma FindErrorAtStatus(api: Version, status: Status)
    ensures var table := ErrorTable(api);
            FindError(table, status) == if 0 <= status < |table| then Some(status) else None
  {
    var table := ErrorTable(api);
    ErrorTableShape(api);
    var r := FindError(table, status);
    if 0 <= status < |table| {
      assert table[status].status == status;
      assert r.Some? && r.value == status;
    } else {
      assert r.None?;
    }
  }

  /** nvenc_map_error returns 0 exactly for NV_ENC_SUCCESS, with "success"; every
      other status, listed or not, gives -1. */
  lemma MapErrorZeroIffSuccess(api: Version, status: Status)
    ensures MapError(api, NvEncSuccess) == (0, "success")
    ensures MapError(api, status).0 == 0 <==> status == NvEncSuccess
    ensures MapError(api, status).0 == 0 || MapError(api, status).0 == -1
  {
    ErrorTableShape(api);
  }

  /** NV_ENC_ERR_NEED_MORE_OUTPUT has its own description only from API 12.1 on. */
  lemma NeedMoreOutputIsGated(api: Version)
    ensures MapError(api, NvEncErrNeedMoreOutput)
            == if CheckVersion(api, 12, 1) then (-1, "need more output") else (-1, "unknown error")
  {
    ErrorTableShape(api);
  }

  /** check_nv: 0 for NV_ENC_SUCCESS, -1 for anything else. */
  function CheckNv(status: Status): (r: int)
    ensures r == 0 <==> status == NvEncSuccess
    ensures r == 0 || r == -1
  {
    if status == NvEncSuccess then 0 else -1
  }

  /** check_nv's diagnostic on standard error: "<call> failed -> <description>".
      nvenc_map_error always sets the description, so the " -> " part is always there. */
  function Diagnostic(api: Version, status: Status, call: string): (line: string)
    requires status != NvEncSuccess
    ensures var table := ErrorTable(api);
            line == call + " failed -> " + (if 0 <= status < |table| then table[status].desc else "unknown error")
  {
    call + " failed -> " + MapError(api, status).1
  }

  /** print_codecs runs print_formats' -1 through check_nv: -1 is no NVENC status,
      so the run stops with -1 and an "unknown error" diagnostic. */
  lemma FormatsFailureThroughCheckNv(api: Version, call: string)
    ensures CheckNv(-1) == -1
    ensures Diagnostic(api, -1, call) == call + " failed -> unknown error"
  {
    var line := Diagnostic(api, -1, call);
    assert line == call + " failed -> " + "unknown error";
  }

  // ---------------------------------------------------------------------
  // Capability keys: nvenc_limits and nvenc_caps

  /** One row of nvenc_limits or nvenc_caps: the NV_ENC_CAPS key (by its SDK name) and its label. */
  datatype CapEntry = CapEntry(cap: string, desc: string)

  /** A block of entries that a build includes only from API `major`.`minor` on. */
  function Gated<T>(api: Version, major: nat, minor: nat, block: seq<T>): seq<T> {
    if CheckVersion(api, major, minor) then block else []
  }

  /** Every entry's label fits the 35-character label column. */
  predicate LabelsFit(entries: seq<CapEntry>) {
    forall k :: 0 <= k < |entries| ==> |entries[k].desc| <= 35
  }

  lemma LabelsFitAppend(a: seq<CapEntry>, b: seq<CapEntry>)
    requires LabelsFit(a) && LabelsFit(b)
    ensures LabelsFit(a + b)
  {
    forall k | 0 <= k < |a + b|
      ensures |(a + b)[k].desc| <= 35
    {
      if k >= |a| {
        assert (a + b)[k] == b[k - |a|];
      }
    }
  }

  lemma GatedLabelsFit(api: Version, major: nat, minor: nat, block: seq<CapEntry>)
    requires LabelsFit(block)
    ensures LabelsFit(Gated(api, major, minor, block))
  {
  }

  /** nvenc_limits without its guarded entries. */
  const BaseLimits: seq<CapEntry> :=
    [ CapEntry("NV_ENC_CAPS_WIDTH_MAX",          "Maximum Width"),
      CapEntry("NV_ENC_CAPS_HEIGHT_MAX",         "Maximum Hight"),
      CapEntry("NV_ENC_CAPS_MB_NUM_MAX",         "Maximum Macroblocks/frame"),
      CapEntry("NV_ENC_CAPS_MB_PER_SEC_MAX",     "Maximum Macroblocks/second"),
      CapEntry("NV_ENC_CAPS_LEVEL_MAX",          "Max Encoding Level"),
      CapEntry("NV_ENC_CAPS_LEVEL_MIN",          "Min Encoding Level"),
      CapEntry("NV_ENC_CAPS_NUM_MAX_BFRAMES",    "Max No. of B-Frames"),
      CapEntry("NV_ENC_CAPS_NUM_MAX_LTR_FRAMES", "Maxmimum LT Reference Frames"),
      CapEntry("NV_ENC_CAPS_WIDTH_MIN",          "Minimum Width"),
      CapEntry("NV_ENC_CAPS_HEIGHT_MIN",         "Minimum Hight") ]

  const Limits11_0: seq<CapEntry> := [CapEntry("NV_ENC_CAPS_NUM_ENCODER_ENGINES", "Number of Encoder Engines")]
  const Limits12_2: seq<CapEntry> := [CapEntry("NV_ENC_CAPS_SUPPORT_LOOKAHEAD_LEVEL", "Maximum Lookahead Level")]

  /** nvenc_limits as a build against API `api` sees it. */
  function LimitTable(api: Version): seq<CapEntry> {
    BaseLimits + Gated(api, 11, 0, Limits11_0) + Gated(api, 12, 2, Limits12_2)
  }

  /** nvenc_caps without its guarded entries, in table order; the entry under
      `#if 0` is not in any build. Written in two parts to keep proofs about it small. */
  const BaseCaps: seq<CapEntry> := BaseCapsHead + BaseCapsTail

  const BaseCapsHead: seq<CapEntry> :=
    [ CapEntry("NV_ENC_CAPS_SUPPORTED_RATECONTROL_MODES",  "Supported Rate-Control Modes"),
      CapEntry("NV_ENC_CAPS_SUPPORT_FIELD_ENCODING",       "Supports Field-Encoding"),
      CapEntry("NV_ENC_CAPS_SUPPORT_MONOCHROME",           "Supports Monochrome"),
      CapEntry("NV_ENC_CAPS_SUPPORT_FMO",                  "Supports FMO"),
      CapEntry("NV_ENC_CAPS_SUPPORT_QPELMV",               "Supports QPEL Motion Estimation"),
      CapEntry("NV_ENC_CAPS_SUPPORT_BDIRECT_MODE",         "Supports BDirect Mode"),
      CapEntry("NV_ENC_CAPS_SUPPORT_CABAC",                "Supports CABAC"),
      CapEntry("NV_ENC_CAPS_SUPPORT_ADAPTIVE_TRANSFORM",   "Supports Adaptive Transform"),
      CapEntry("NV_ENC_CAPS_SUPPORT_STEREO_MVC",           "Supports Stereo Multi-View Coding"),
      CapEntry("NV_ENC_CAPS_NUM_MAX_TEMPORAL_LAYERS",      "Supports Temporal Layers"),
      CapEntry("NV_ENC_CAPS_SUPPORT_HIERARCHICAL_PFRAMES", "Supports Hierarchical P-Frames"),
      CapEntry("NV_ENC_CAPS_SUPPORT_HIERARCHICAL_BFRAMES", "Supports Hierarchical B-Frames"),
      CapEntry("NV_ENC_CAPS_SEPARATE_COLOUR_PLANE",        "Supports Separate Colour Planes"),
      CapEntry("NV_ENC_CAPS_SUPPORT_TEMPORAL_SVC",         "Supports Temporal SVC"),
      CapEntry("NV_ENC_CAPS_SUPPORT_DYN_RES_CHANGE",       "Supports Dynamic Resolution Change"),
      CapEntry("NV_ENC_CAPS_SUPPORT_DYN_BITRATE_CHANGE",   "Supports Dynamic Bitrate Change"),
      CapEntry("NV_ENC_CAPS_SUPPORT_DYN_FORCE_CONSTQP",    "Supports Dynamic Force Const-QP"),
      CapEntry("NV_ENC_CAPS_SUPPORT_DYN_RCMODE_CHANGE",    "Supports Dynamic RC-Mode Change"),
      CapEntry("NV_ENC_CAPS_SUPPORT_SUBFRAME_READBACK",    "Supports Sub-Frame Read-back"),
      CapEntry("NV_ENC_CAPS_SUPPORT_CONSTRAINED_ENCODING", "Supports Constrained Encoding") ]

  const BaseCapsTail: seq<CapEntry> :=
    [ CapEntry("NV_ENC_CAPS_SUPPORT_INTRA_REFRESH",        "Supports Intra Refresh"),
      CapEntry("NV_ENC_CAPS_SUPPORT_CUSTOM_VBV_BUF_SIZE",  "Supports Custom VBV Buffer Size"),
      CapEntry("NV_ENC_CAPS_SUPPORT_DYNAMIC_SLICE_MODE",   "Supports Dynamic Slice Mode"),
      CapEntry("NV_ENC_CAPS_SUPPORT_REF_PIC_INVALIDATION", "Supports Ref Pic Invalidation"),
      CapEntry("NV_ENC_CAPS_PREPROC_SUPPORT",              "Supports PreProcessing"),
      CapEntry("NV_ENC_CAPS_ASYNC_ENCODE_SUPPORT",         "Supports Async Encoding"),
      CapEntry("NV_ENC_CAPS_SUPPORT_YUV444_ENCODE",        "Supports YUV444 Encoding"),
      CapEntry("NV_ENC_CAPS_SUPPORT_LOSSLESS_ENCODE",      "Supports Lossless Encoding"),
      CapEntry("NV_ENC_CAPS_SUPPORT_SAO",                  "Supports SAO"),
      CapEntry("NV_ENC_CAPS_SUPPORT_MEONLY_MODE",          "Supports ME-Only Mode"),
      CapEntry("NV_ENC_CAPS_SUPPORT_LOOKAHEAD",            "Supports Lookahead Encoding"),
      CapEntry("NV_ENC_CAPS_SUPPORT_TEMPORAL_AQ",          "Supports Temporal AQ"),
      CapEntry("NV_ENC_CAPS_SUPPORT_10BIT_ENCODE",         "Supports 10-bit Encoding"),
      CapEntry("NV_ENC_CAPS_SUPPORT_WEIGHTED_PREDICTION",  "Supports Weighted Prediction"),
      CapEntry("NV_ENC_CAPS_SUPPORT_BFRAME_REF_MODE",      "Supports B-Frames as References"),
      CapEntry("NV_ENC_CAPS_SUPPORT_EMPHASIS_LEVEL_MAP",   "Supports Emphasis Level Map"),
      CapEntry("NV_ENC_CAPS_SUPPORT_MULTIPLE_REF_FRAMES",  "Supports Multiple Reference Frames") ]

  const Caps11_1: seq<CapEntry> :=
    [ CapEntry("NV_ENC_CAPS_SUPPORT_ALPHA_LAYER_ENCODING", "Supports Alpha Layer Encoding"),
      CapEntry("NV_ENC_CAPS_SINGLE_SLICE_INTRA_REFRESH",   "Supports Single Slice Intra Refresh") ]
  const Caps12_1: seq<CapEntry> :=
    [ CapEntry("NV_ENC_CAPS_DISABLE_ENC_STATE_ADVANCE", "Supports encoding without advancing"),
      CapEntry("NV_ENC_CAPS_OUTPUT_RECON_SURFACE",      "Supports reconstructed output"),
      CapEntry("NV_ENC_CAPS_OUTPUT_BLOCK_STATS",        "Supports per-block output stats"),
      CapEntry("NV_ENC_CAPS_OUTPUT_ROW_STATS",          "Supports per-row output stats") ]
  const Caps12_2: seq<CapEntry> :=
    [ CapEntry("NV_ENC_CAPS_SUPPORT_TEMPORAL_FILTER",   "Supports Temporal Filtering"),
      CapEntry("NV_ENC_CAPS_SUPPORT_UNIDIRECTIONAL_B",  "Supports Unidirectional B Frames ") ]
  const Caps13_0: seq<CapEntry> :=
    [ CapEntry("NV_ENC_CAPS_SUPPORT_MVHEVC_ENCODE",     "Supports Multi-View HEVC Encoding"),
      CapEntry("NV_ENC_CAPS_SUPPORT_YUV422_ENCODE",     "Supports YUV422 Encoding") ]

  /** nvenc_caps as a build against API `api` sees it. */
  function CapTable(api: Version): seq<CapEntry> {
    BaseCaps + Gated(api, 11, 1, Caps11_1) + Gated(api, 12, 1, Caps12_1)
    + Gated(api, 12, 2, Caps12_2) + Gated(api, 13, 0, Caps13_0)
  }

  /** How many rows nvenc_limits has in a build: the guards only ever add rows. */
  lemma LimitTableSize(api: Version)
    ensures |LimitTable(api)| == 10 + (if CheckVersion(api, 11, 0) then 1 else 0)
                                    + (if CheckVersion(api, 12, 2) then 1 else 0)
  {
    assert |BaseLimits| == 10;
  }

  /** How many rows nvenc_caps has in a build. */
  lemma CapTableSize(api: Version)
    ensures |CapTable(api)| == 37 + (if CheckVersion(api, 11, 1) then 2 else 0)
                                  + (if CheckVersion(api, 12, 1) then 4 else 0)
                                  + (if CheckVersion(api, 12, 2) then 2 else 0)
                                  + (if CheckVersion(api, 13, 0) then 2 else 0)
  {
    assert |BaseCaps| == 37;
  }

  /** Every limit label fits the 35-character label column. */
  lemma LimitLabelsFit(api: Version)
    ensures LabelsFit(LimitTable(api))
  {
    assert LabelsFit(BaseLimits);
    GatedLabelsFit(api, 11, 0, Limits11_0);
    GatedLabelsFit(api, 12, 2, Limits12_2);
    LabelsFitAppend(BaseLimits, Gated(api, 11, 0, Limits11_0));
    LabelsFitAppend(BaseLimits + Gated(api, 11, 0, Limits11_0), Gated(api, 12, 2, Limits12_2));
  }

  /** Every capability label fits the 35-character label column. */
  lemma CapLabelsFit(api: Version)
    ensures LabelsFit(CapTable(api))
  {
    BaseCapLabelsFit();
    GatedLabelsFit(api, 11, 1, Caps11_1);
    GatedLabelsFit(api, 12, 1, Caps12_1);
    GatedLabelsFit(api, 12, 2, Caps12_2);
    GatedLabelsFit(api, 13, 0, Caps13_0);
    var t1 := BaseCaps + Gated(api, 11, 1, Caps11_1);
    var t2 := t1 + Gated(api, 12, 1, Caps12_1);
    var t3 := t2 + Gated(api, 12, 2, Caps12_2);
    LabelsFitAppend(BaseCaps, Gated(api, 11, 1, Caps11_1));
    LabelsFitAppend(t1, Gated(api, 12, 1, Caps12_1));
    LabelsFitAppend(t2, Gated(api, 12, 2, Caps12_2));
    LabelsFitAppend(t3, Gated(api, 13, 0, Caps13_0));
  }

  lemma BaseCapLabelsFit()
    ensures LabelsFit(BaseCaps)
  {
    assert LabelsFit(BaseCapsHead);
    assert LabelsFit(BaseCapsTail);
    LabelsFitAppend(BaseCapsHead, BaseCapsTail);
  }

  // ---------------------------------------------------------------------
  // Input buffer formats: nvenc_formats

  /** NV_ENC_BUFFER_FORMAT values, as the flags the SDK header defines. */
  const FormatNv12: bv32 := 0x0000_0001
  const FormatYv12: bv32 := 0x0000_0010
  const FormatIyuv: bv32 := 0x0000_0100
  const FormatYuv444: bv32 := 0x0000_1000
  const FormatYuv420_10Bit: bv32 := 0x0001_0000
  const FormatYuv444_10Bit: bv32 := 0x0010_0000
  const FormatArgb: bv32 := 0x0100_0000
  const FormatArgb10: bv32 := 0x0200_0000
  const FormatAyuv: bv32 := 0x0400_0000
  const FormatAbgr: bv32 := 0x1000_0000
  const FormatAbgr10: bv32 := 0x2000_0000
  const FormatU8: bv32 := 0x4000_0000
  const FormatNv16: bv32 := 0x4000_0001
  const FormatP210: bv32 := 0x4000_0002

  /** One row of nvenc_formats: the format flag and its label. */
  datatype FormatEntry = FormatEntry(flag: bv32, desc: string)

  function FormatTable(api: Version): seq<FormatEntry> {
    [ FormatEntry(FormatNv12,         "NV12"),
      FormatEntry(FormatYv12,         "YV12"),
      FormatEntry(FormatIyuv,         "IYUV"),
      FormatEntry(FormatYuv444,       "YUV444"),
      FormatEntry(FormatYuv420_10Bit, "P010"),
      FormatEntry(FormatYuv444_10Bit, "YUV444P10"),
      FormatEntry(FormatArgb,         "ARGB"),
      FormatEntry(FormatArgb10,       "ARGB10"),
      FormatEntry(FormatAyuv,         "AYUV"),
      FormatEntry(FormatAbgr,         "ABGR"),
      FormatEntry(FormatAbgr10,       "ABGR10"),
      FormatEntry(FormatU8,           "U8") ]
    + (if CheckVersion(api, 13, 0)
       then [FormatEntry(FormatNv16, "NV16"), FormatEntry(FormatP210, "P210")] else [])
  }

  /** A flag with exactly one bit set. */
  predicate SingleBit(f: bv32) {
    f != 0 && f & (f - 1) == 0
  }

  /** Before API 13 every listed format is a single bit; NV16 and P210, added in
      13, are not: each shares a bit with another listed format. */
  lemma FormatFlags(api: Version)
    ensures !CheckVersion(api, 13, 0) ==> forall k :: 0 <= k < |FormatTable(api)| ==> SingleBit(FormatTable(api)[k].flag)
    ensures !SingleBit(FormatNv16) && FormatNv16 & FormatNv12 != 0 && FormatNv16 & FormatU8 != 0
    ensures !SingleBit(FormatP210) && FormatP210 & FormatU8 != 0
  {
  }

  // ---------------------------------------------------------------------
  // GUIDs, nvenc_profiles and nvenc_presets

  /** A 16-byte GUID. Those the SDK header defines are kept symbolic, by their
      SDK name (distinct names stand for distinct bytes); those nvencinfo.c writes
      out itself are given field by field. Two GUIDs are memcmp-equal exactly when
      they are equal values. */
  datatype Guid =
    | SdkGuid(name: string)
    | Literal(data1: bv32, data2: bv16, data3: bv16, data4: seq<bv8>)

  /** One row of nvenc_profiles or nvenc_presets. */
  datatype GuidEntry = GuidEntry(guid: Guid, desc: string)

  function ProfileTable(api: Version): seq<GuidEntry> {
    [ GuidEntry(SdkGuid("NV_ENC_CODEC_PROFILE_AUTOSELECT_GUID"),  "Auto"),
      GuidEntry(SdkGuid("NV_ENC_H264_PROFILE_BASELINE_GUID"),     "Baseline"),
      GuidEntry(SdkGuid("NV_ENC_H264_PROFILE_MAIN_GUID"),         "Main"),
      GuidEntry(SdkGuid("NV_ENC_H264_PROFILE_HIGH_GUID"),         "High") ]
    + (if CheckVersion(api, 13, 0)
       then [ GuidEntry(SdkGuid("NV_ENC_H264_PROFILE_HIGH_10_GUID"),  "High10"),
              GuidEntry(SdkGuid("NV_ENC_H264_PROFILE_HIGH_422_GUID"), "High422") ]
       else [])
    + [ GuidEntry(SdkGuid("NV_ENC_H264_PROFILE_HIGH_444_GUID"),         "High444"),
        GuidEntry(SdkGuid("NV_ENC_H264_PROFILE_STEREO_GUID"),           "MVC"),
        GuidEntry(SdkGuid("NV_ENC_H264_PROFILE_PROGRESSIVE_HIGH_GUID"), "Progressive High"),
        GuidEntry(SdkGuid("NV_ENC_H264_PROFILE_CONSTRAINED_HIGH_GUID"), "Constrained High"),
        GuidEntry(SdkGuid("NV_ENC_HEVC_PROFILE_MAIN_GUID"),             "Main"),
        GuidEntry(SdkGuid("NV_ENC_HEVC_PROFILE_MAIN10_GUID"),           "Main10"),
        GuidEntry(SdkGuid("NV_ENC_HEVC_PROFILE_FREXT_GUID"),            "Main444") ]
    + (if CheckVersion(api, 12, 0)
       then [GuidEntry(SdkGuid("NV_ENC_AV1_PROFILE_MAIN_GUID"), "Main")] else [])
  }

  /** The legacy preset GUIDs, as nvencinfo.c defines them for API 12.1 and later
      (earlier headers define the same values). */
  const PresetDefault := Literal(0xb2dfb705, 0x4ebd, 0x4c49, [0x9b, 0x5f, 0x24, 0xa7, 0x77, 0xd3, 0xe5, 0x87])
  const PresetHp := Literal(0x60e4c59f, 0xe846, 0x4484, [0xa5, 0x6d, 0xcd, 0x45, 0xbe, 0x9f, 0xdd, 0xf6])
  const PresetHq := Literal(0x34dba71d, 0xa77b, 0x4b8f, [0x9c, 0x3e, 0xb6, 0xd5, 0xda, 0x24, 0xc0, 0x12])
  const PresetBd := Literal(0x82e3e450, 0xbdbb, 0x4e40, [0x98, 0x9c, 0x82, 0xa9, 0x0d, 0xf9, 0xef, 0x32])
  const PresetLowLatencyDefault := Literal(0x49df21c5, 0x6dfa, 0x4feb, [0x97, 0x87, 0x6a, 0xcc, 0x9e, 0xff, 0xb7, 0x26])
  const PresetLowLatencyHq := Literal(0xc5f733b9, 0xea97, 0x4cf9, [0xbe, 0xc2, 0xbf, 0x78, 0xa7, 0x4f, 0xd1, 0x05])
  const PresetLowLatencyHp := Literal(0x67082a44, 0x4bad, 0x48fa, [0x98, 0xea, 0x93, 0x05, 0x6d, 0x15, 0x0a, 0x58])
  const PresetLosslessDefault := Literal(0xd5bfb716, 0xc604, 0x44e7, [0x9b, 0xb8, 0xde, 0xa5, 0x51, 0x0f, 0xc3, 0xac])
  const PresetLosslessHp := Literal(0x149998e7, 0x2364, 0x411d, [0x82, 0xef, 0x17, 0x98, 0x88, 0x09, 0x34, 0x09])

  function PresetTable(api: Version): seq<GuidEntry> {
    [ GuidEntry(PresetDefault,           "default"),
      GuidEntry(PresetHp,                "hp"),
      GuidEntry(PresetHq,                "hq"),
      GuidEntry(PresetBd,                "bluray"),
      GuidEntry(PresetLowLatencyDefault, "ll"),
      GuidEntry(PresetLowLatencyHq,      "llhq"),
      GuidEntry(PresetLowLatencyHp,      "llhp"),
      GuidEntry(PresetLosslessDefault,   "lossless"),
      GuidEntry(PresetLosslessHp,        "losslesshp") ]
    + (if CheckVersion(api, 11, 0)
       then [ GuidEntry(SdkGuid("NV_ENC_PRESET_P1_GUID"), "p1"),
              GuidEntry(SdkGuid("NV_ENC_PRESET_P2_GUID"), "p2"),
              GuidEntry(SdkGuid("NV_ENC_PRESET_P3_GUID"), "p3"),
              GuidEntry(SdkGuid("NV_ENC_PRESET_P4_GUID"), "p4"),
              GuidEntry(SdkGuid("NV_ENC_PRESET_P5_GUID"), "p5"),
              GuidEntry(SdkGuid("NV_ENC_PRESET_P6_GUID"), "p6"),
              GuidEntry(SdkGuid("NV_ENC_PRESET_P7_GUID"), "p7") ]
       else [])
  }

  /** The entry that get_profiles' scan leaves in place: the loop has no `break`,
      so every later match overwrites an earlier one and the last match wins. */
  function LastMatch(table: seq<GuidEntry>, g: Guid): (r: Option<nat>)
    ensures r.Some? ==> r.value < |table| && table[r.value].guid == g
                        && forall k :: r.value < k < |table| ==> table[k].guid != g
    ensures r.None? <==> forall k :: 0 <= k < |table| ==> table[k].guid != g
  {
    if table == [] then None
    else if table[|table| - 1].guid == g then Some(|table| - 1)
    else LastMatch(table[..|table| - 1], g)
  }

  /** The name a GUID resolves to: the last matching entry's, or "Unknown". */
  function Resolve(table: seq<GuidEntry>, g: Guid): (name: string)
    ensures (exists k :: 0 <= k < |table| && table[k].guid == g && name == table[k].desc)
            || (name == "Unknown" && forall k :: 0 <= k < |table| ==> table[k].guid != g)
  {
    match LastMatch(table, g)
    case Some(k) => table[k].desc
    case None => "Unknown"
  }

  /** Resolution never fails: a GUID gets the name of the last entry that lists
      it, and "Unknown" exactly when no entry does (unless an entry is itself
      named "Unknown"). */
  lemma ResolveSpec(table: seq<GuidEntry>, g: Guid)
    ensures (forall k :: 0 <= k < |table| ==> table[k].guid != g) ==> Resolve(table, g) == "Unknown"
    ensures forall k :: 0 <= k < |table| && table[k].guid == g
                        && (forall m :: k < m < |table| ==> table[m].guid != g)
                        ==> Resolve(table, g) == table[k].desc
    ensures (forall e :: e in table ==> e.desc != "Unknown")
            ==> (Resolve(table, g) == "Unknown" <==> forall k :: 0 <= k < |table| ==> table[k].guid != g)
  {
    var r := LastMatch(table, g);
    if r.Some? {
      assert table[r.value] in table;
      forall k | 0 <= k < |table| && table[k].guid == g && (forall m :: k < m < |table| ==> table[m].guid != g)
        ensures k == r.value
      {
      }
    }
  }

  /** Scanning one more entry: how the resolution loop's state advances. */
  lemma LastMatchSnoc(table: seq<GuidEntry>, j: nat, g: Guid)
    requires j < |table|
    ensures LastMatch(table[..j + 1], g)
            == if table[j].guid == g then Some(j) else LastMatch(table[..j], g)
  {
    assert table[..j + 1][..j] == table[..j];
  }

  // ---------------------------------------------------------------------
  // Codec GUIDs and the column labels of print_codecs

  const CodecH264 := SdkGuid("NV_ENC_CODEC_H264_GUID")
  const CodecHevc := SdkGuid("NV_ENC_CODEC_HEVC_GUID")
  const CodecAv1 := SdkGuid("NV_ENC_CODEC_AV1_GUID")

  /** The column heading print_codecs prints for a codec GUID; AV1 is only
      recognised from API 12.0 on. */
  function CodecLabel(api: Version, g: Guid): (heading: string)
    ensures |heading| == 12 && heading[11] == '|'
    ensures heading == "  Unknown  |" <==> !(g == CodecH264 || g == CodecHevc || (g == CodecAv1 && CheckVersion(api, 12, 0)))
  {
    if g == CodecH264 then "    H264   |"
    else if g == CodecHevc then "    HEVC   |"
    else if CheckVersion(api, 12, 0) && g == CodecAv1 then "    AV1    |"
    else "  Unknown  |"
  }
}
