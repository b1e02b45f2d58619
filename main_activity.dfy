/**
 * The decisions of `MainActivity.kt`: which codecs `setCodecInfo` reports
 * to the native side, over codec records standing in for
 * `MediaCodecInfo`, and the system-permission rule.
 */
module Codecs {
  import opened Wrappers
  import opened AndroidCodes

  const ALIGN: int := 64
  const SDK_Q: int := 29
  const COLOR_FORMAT_YUV420_SEMI_PLANAR: int := 21
  const COLOR_FORMAT_SURFACE: int := 0x7F00_0789
  const AVC: string := "video/avc"
  const HEVC: string := "video/hevc"
  const PERMISSION_GRANTED: int := 0

  /** Name prefixes of software codecs, checked first below API 29. */
  const SOFTWARE_PREFIXES: seq<string> := ["OMX.google.", "OMX.SEC.", "c2.android"]
  /** Name prefixes of hardware codecs. */
  const HARDWARE_PREFIXES: seq<string> :=
    ["c2.qti", "OMX.qcom.video", "OMX.Exynos", "OMX.hisi", "OMX.MTK", "OMX.Intel", "OMX.Nvidia"]

  datatype Range = Range(lower: int, upper: int)

  /**
   * `CodecCapabilities` for one type: the size, bitrate and colour-format
   * data read, with `isSizeSupported` given by the set of supported sizes.
   */
  datatype Caps = Caps(widths: Range, heights: Range, bitrates: Range,
                       colorFormats: seq<int>, supportedSizes: set<(int, int)>)

  /** A `MediaCodecInfo`; `capsFor` is `getCapabilitiesForType`. */
  datatype Codec = Codec(name: string, isEncoder: bool, isHardwareAccelerated: bool,
                         supportedTypes: seq<string>, capsFor: string -> Caps)

  /** One object of the reported `codecs` array. */
  datatype Entry = Entry(name: string, isEncoder: bool, hw: bool, mimeType: string,
                         minWidth: int, maxWidth: int, minHeight: int, maxHeight: int,
                         surface: bool, nv12: bool, minBitrate: int, maxBitrate: int)

  /** The object handed to `FFI.setCodecInfo`. */
  datatype CodecInfo = CodecInfo(version: int, w: int, h: int, codecs: seq<Entry>)

  /** `(x + align - 1) / align * align` in Kotlin `Int` arithmetic. */
  function AlignUp(x: int): int
  {
    KotlinDiv(x + ALIGN - 1, ALIGN) * ALIGN
  }

  /** A screen size is rounded up to the least multiple of 64 that is not below it. */
  lemma AlignUpSpec(x: int)
    requires x >= 0
    ensures AlignUp(x) % 64 == 0 && x <= AlignUp(x) < x + 64
    ensures x % 64 == 0 ==> AlignUp(x) == x
  {
  }

  /** `startsWith(prefix, ignoreCase = true)` for ASCII letters. */
  predicate StartsWithIgnoreCase(s: string, prefix: string)
  {
    |prefix| <= |s| && forall i :: 0 <= i < |prefix| ==> LowerAscii(s[i]) == LowerAscii(prefix[i])
  }

  predicate AnyPrefix(s: string, prefixes: seq<string>)
  {
    exists i :: 0 <= i < |prefixes| && StartsWithIgnoreCase(s, prefixes[i])
  }

  /** `hw` as computed: the platform flag from API 29, else the name lists; `None` is null. */
  function HwFlag(sdk: int, c: Codec): Option<bool>
  {
    if sdk >= SDK_Q then Some(c.isHardwareAccelerated)
    else if AnyPrefix(c.name, SOFTWARE_PREFIXES) then Some(false)
    else if AnyPrefix(c.name, HARDWARE_PREFIXES) then Some(true)
    else None
  }

  predicate IsReportedMime(t: string)
  {
    t == AVC || t == HEVC
  }

  /** The position of the last AVC or HEVC type in `types`, or -1 when there is none. */
  function LastReportedIndex(types: seq<string>): (r: int)
    ensures -1 <= r < |types|
  {
    if types == [] then -1
    else if IsReportedMime(types[|types| - 1]) then |types| - 1
    else LastReportedIndex(types[..|types| - 1])
  }

  /** The type the `mime_type` loop ends with: the last AVC or HEVC type, or "". */
  function LastReportedMime(types: seq<string>): string
  {
    var i := LastReportedIndex(types);
    if i < 0 then "" else types[i]
  }

  /**
   * The `mime_type` loop keeps the last AVC or HEVC type: there is none
   * exactly when no listed type is AVC or HEVC, and otherwise it is one
   * with no AVC or HEVC type after it.
   */
  lemma {:induction false} LastReportedIndexSpec(types: seq<string>)
    ensures var i := LastReportedIndex(types);
      (i < 0 <==> forall j :: 0 <= j < |types| ==> !IsReportedMime(types[j])) &&
      (i >= 0 ==> IsReportedMime(types[i]) && forall j :: i < j < |types| ==> !IsReportedMime(types[j]))
    decreases |types|
  {
    if types != [] && !IsReportedMime(types[|types| - 1]) {
      var init := types[..|types| - 1];
      LastReportedIndexSpec(init);
      assert forall j :: 0 <= j < |init| ==> init[j] == types[j];
    }
  }

  /** The chosen type is "" exactly when no AVC or HEVC type is listed, and otherwise AVC or HEVC. */
  lemma LastReportedMimeSpec(types: seq<string>)
    ensures var m := LastReportedMime(types);
      (m == "" <==> forall j :: 0 <= j < |types| ==> !IsReportedMime(types[j])) &&
      (m != "" ==> IsReportedMime(m) && m == types[LastReportedIndex(types)])
  {
    LastReportedIndexSpec(types);
  }

  /** The entry a codec contributes, following the early returns of the `forEach` body. */
  function EntryFor(sdk: int, w: int, h: int, c: Codec): Option<Entry>
  {
    if HwFlag(sdk, c) != Some(true) then None
    else
      var mime := LastReportedMime(c.supportedTypes);
      if mime == "" then None
      else
        var caps := c.capsFor(mime);
        if c.isEncoder && (w, h) !in caps.supportedSizes && (h, w) !in caps.supportedSizes then None
        else
          var surface := COLOR_FORMAT_SURFACE in caps.colorFormats;
          var nv12 := COLOR_FORMAT_YUV420_SEMI_PLANAR in caps.colorFormats;
          if !(nv12 || surface) then None
          else if !c.isEncoder then None
          else Some(Entry(c.name, c.isEncoder, true, mime,
                          caps.widths.lower, caps.widths.upper, caps.heights.lower, caps.heights.upper,
                          surface, nv12, KotlinDiv(caps.bitrates.lower, 1000), KotlinDiv(caps.bitrates.upper, 1000)))
  }

  /** The entries of all codecs, in the order of the codec list. */
  function Entries(sdk: int, w: int, h: int, codecs: seq<Codec>): seq<Entry>
  {
    if codecs == [] then []
    else
      var init := Entries(sdk, w, h, codecs[..|codecs| - 1]);
      match EntryFor(sdk, w, h, codecs[|codecs| - 1])
      case None => init
      case Some(e) => init + [e]
  }

  /**
   * Exactly the hardware encoders with an AVC or HEVC type, supporting the
   * aligned screen size in either orientation and offering NV12 or surface
   * input, are reported. Their entry carries the codec's name, the chosen
   * type, the size ranges and the bitrates in kbit/s.
   */
  lemma EntryForSpec(sdk: int, w: int, h: int, c: Codec)
    ensures var mime := LastReportedMime(c.supportedTypes);
      var caps := c.capsFor(mime);
      (EntryFor(sdk, w, h, c).Some? <==>
        HwFlag(sdk, c) == Some(true) && mime != "" && c.isEncoder &&
        ((w, h) in caps.supportedSizes || (h, w) in caps.supportedSizes) &&
        (COLOR_FORMAT_YUV420_SEMI_PLANAR in caps.colorFormats || COLOR_FORMAT_SURFACE in caps.colorFormats)) &&
      (EntryFor(sdk, w, h, c).Some? ==>
        var e := EntryFor(sdk, w, h, c).value;
        e.name == c.name && e.isEncoder && e.hw && e.mimeType == mime && IsReportedMime(e.mimeType) &&
        (e.nv12 || e.surface) &&
        (caps.bitrates.lower >= 0 ==> e.minBitrate == caps.bitrates.lower / 1000) &&
        (caps.bitrates.upper >= 0 ==> e.maxBitrate == caps.bitrates.upper / 1000))
  {
    LastReportedMimeSpec(c.supportedTypes);
  }

  /** Below API 29 the software list wins: a name on it is never hardware, whatever else it matches. */
  lemma SoftwarePrefixWins(sdk: int, c: Codec)
    requires sdk < SDK_Q && AnyPrefix(c.name, SOFTWARE_PREFIXES)
    ensures HwFlag(sdk, c) == Some(false) && EntryFor(sdk, 0, 0, c).None?
  {
  }

  /** Below API 29 a name on neither list leaves `hw` null, and the codec is skipped. */
  lemma UnlistedNameSkipped(sdk: int, w: int, h: int, c: Codec)
    requires sdk < SDK_Q && !AnyPrefix(c.name, SOFTWARE_PREFIXES) && !AnyPrefix(c.name, HARDWARE_PREFIXES)
    ensures HwFlag(sdk, c).None? && EntryFor(sdk, w, h, c).None?
  {
  }

  /** Case does not matter: a MediaTek codec named in lower case is still hardware below API 29. */
  lemma CaseInsensitiveName(c: Codec)
    requires c.name == "omx.mtk.video.encoder.avc"
    ensures HwFlag(28, c) == Some(true)
  {
    assert StartsWithIgnoreCase(c.name, HARDWARE_PREFIXES[4]);
    assert LowerAscii(c.name[4]) != LowerAscii(SOFTWARE_PREFIXES[0][4]);
    assert LowerAscii(c.name[4]) != LowerAscii(SOFTWARE_PREFIXES[1][4]);
    assert LowerAscii(c.name[0]) != LowerAscii(SOFTWARE_PREFIXES[2][0]);
  }

  /** The positions in the codec list of the codecs that contribute an entry. */
  function Contributors(sdk: int, w: int, h: int, codecs: seq<Codec>): seq<nat>
  {
    if codecs == [] then []
    else
      var init := Contributors(sdk, w, h, codecs[..|codecs| - 1]);
      if EntryFor(sdk, w, h, codecs[|codecs| - 1]).Some? then init + [|codecs| - 1] else init
  }

  /**
   * The report lists only reportable entries, one per codec at most and in
   * the codec list's order: the k-th entry is the entry of the codec at the
   * k-th contributing position, and those positions strictly increase.
   */
  lemma {:induction false} EntriesSpec(sdk: int, w: int, h: int, codecs: seq<Codec>)
    ensures var es := Entries(sdk, w, h, codecs);
      var idx := Contributors(sdk, w, h, codecs);
      |idx| == |es| <= |codecs| &&
      (forall k :: 0 <= k < |idx| ==> idx[k] < |codecs| && EntryFor(sdk, w, h, codecs[idx[k]]) == Some(es[k])) &&
      (forall k, l :: 0 <= k < l < |idx| ==> idx[k] < idx[l])
    decreases |codecs|
  {
    if codecs != [] {
      var n := |codecs| - 1;
      var init := codecs[..n];
      EntriesSpec(sdk, w, h, init);
      assert forall i :: 0 <= i < n ==> init[i] == codecs[i];
    }
  }

  /** Every reported codec is a hardware encoder of AVC or HEVC; no decoder is ever reported. */
  lemma OnlyHardwareEncoders(sdk: int, w: int, h: int, codecs: seq<Codec>)
    ensures forall k :: 0 <= k < |Entries(sdk, w, h, codecs)| ==>
      var e := Entries(sdk, w, h, codecs)[k];
      e.isEncoder && e.hw && IsReportedMime(e.mimeType) && (e.nv12 || e.surface)
  {
    EntriesSpec(sdk, w, h, codecs);
    var es := Entries(sdk, w, h, codecs);
    var idx := Contributors(sdk, w, h, codecs);
    forall k | 0 <= k < |es|
      ensures es[k].isEncoder && es[k].hw && IsReportedMime(es[k].mimeType) && (es[k].nv12 || es[k].surface)
    {
      EntryForSpec(sdk, w, h, codecs[idx[k]]);
    }
  }

  /** The `supportedTypes.forEach` loop. */
  method ChooseMime(types: seq<string>) returns (mime: string)
    ensures mime == LastReportedMime(types)
  {
    mime := "";
    var j := 0;
    while j < |types|
      invariant 0 <= j <= |types|
      invariant mime == LastReportedMime(types[..j])
    {
      assert types[..j + 1][..j] == types[..j];
      assert types[..j + 1][j] == types[j];
      if types[j] == AVC || types[j] == HEVC {
        mime := types[j];
      }
      j := j + 1;
    }
    assert types[..j] == types;
  }

  /**
   * `setCodecInfo`: aligns the screen size, then walks the codec list
   * appending the object of each codec that survives every check.
   */
  method SetCodecInfo(sdk: int, screenW: int, screenH: int, codecs: seq<Codec>) returns (info: CodecInfo)
    ensures info.version == sdk && info.w == AlignUp(screenW) && info.h == AlignUp(screenH)
    ensures info.codecs == Entries(sdk, info.w, info.h, codecs)
  {
    var w := (screenW + ALIGN - 1);
    w := KotlinDiv(w, ALIGN) * ALIGN;
    var h := (screenH + ALIGN - 1);
    h := KotlinDiv(h, ALIGN) * ALIGN;
    var codecArray: seq<Entry> := [];
    var k := 0;
    while k < |codecs|
      invariant 0 <= k <= |codecs|
      invariant codecArray == Entries(sdk, w, h, codecs[..k])
    {
      var codec := codecs[k];
      assert codecs[..k + 1][..k] == codecs[..k];
      var hw: Option<bool> := None;
      if sdk >= SDK_Q {
        hw := Some(codec.isHardwareAccelerated);
      } else if AnyPrefix(codec.name, SOFTWARE_PREFIXES) {
        hw := Some(false);
      } else if AnyPrefix(codec.name, HARDWARE_PREFIXES) {
        hw := Some(true);
      }
      k := k + 1;
      if hw != Some(true) {
        continue;
      }
      var mime := ChooseMime(codec.supportedTypes);
      if mime == "" {
        continue;
      }
      var caps := codec.capsFor(mime);
      if codec.isEncoder && (w, h) !in caps.supportedSizes && (h, w) !in caps.supportedSizes {
        continue;
      }
      var surface := COLOR_FORMAT_SURFACE in caps.colorFormats;
      var nv12 := COLOR_FORMAT_YUV420_SEMI_PLANAR in caps.colorFormats;
      if !(nv12 || surface) {
        continue;
      }
      var minBitrate := KotlinDiv(caps.bitrates.lower, 1000);
      var maxBitrate := KotlinDiv(caps.bitrates.upper, 1000);
      if !codec.isEncoder {
        continue;
      }
      codecArray := codecArray + [Entry(codec.name, codec.isEncoder, true, mime,
                                        caps.widths.lower, caps.widths.upper, caps.heights.lower, caps.heights.upper,
                                        surface, nv12, minBitrate, maxBitrate)];
    }
    assert codecs[..k] == codecs;
    return CodecInfo(sdk, w, h, codecArray);
  }

  /**
   * `checkSystemPermissions`, from the three `checkCallingOrSelfPermission`
   * answers: SurfaceFlinger access alone suffices, otherwise both capture
   * video output and read frame buffer are needed.
   */
  function CheckSystemPermissions(surfaceFlinger: int, captureVideo: int, readFrameBuffer: int): (r: bool)
    ensures surfaceFlinger == PERMISSION_GRANTED ==> r
    ensures surfaceFlinger != PERMISSION_GRANTED ==> (r <==> captureVideo == PERMISSION_GRANTED && readFrameBuffer == PERMISSION_GRANTED)
  {
    var hasSurfaceFlinger := surfaceFlinger == PERMISSION_GRANTED;
    var hasOthers := captureVideo == PERMISSION_GRANTED && readFrameBuffer == PERMISSION_GRANTED;
    hasSurfaceFlinger || hasOthers
  }
}
