/** Browser classification by user-agent string (app/scripts/utils.ts).
    The source reads `window.navigator.userAgent` once at module load;
    here every test is a pure function of the user-agent string. Each
    regular expression of the source has a declarative reading (a
    `ghost predicate` saying where a match sits) and a scanning function
    proved equivalent to it. */
module UserAgent {
  import opened Wrappers
  import opened Strings

  // ---------------------------------------------------------------------
  // Microsoft browsers
  // ---------------------------------------------------------------------

  /** `ua.indexOf("MSIE ") > 0`: the FIRST occurrence sits after index 0,
      so a string starting with "MSIE " fails the test even when the
      marker occurs again later. */
  predicate MsieMarker(ua: string)
    ensures MsieMarker(ua) <==>
              (exists k :: OccursAt(ua, "MSIE ", k)) && !OccursAt(ua, "MSIE ", 0)
  {
    IndexOf(ua, "MSIE ") > 0
  }

  /** No character of `s[lo..hi]` stops the regex `.`. */
  ghost predicate NoLineTerminator(s: string, lo: int, hi: int)
    requires 0 <= lo <= hi <= |s|
  {
    forall k :: lo <= k < hi ==> !IsLineTerminator(s[k])
  }

  /** `/Trident.*rv:11\./` matches: "Trident" at `i`, "rv:11." at `j`,
      and `.*` spans the gap between them. */
  ghost predicate TridentRegexMatches(ua: string)
  {
    exists i, j ::
      OccursAt(ua, "Trident", i) && OccursAt(ua, "rv:11.", j) &&
      i + 7 <= j && NoLineTerminator(ua, i + 7, j)
  }

  /** Position `j` can be reached by `Trident.*`. */
  ghost predicate ArmedAt(ua: string, j: int)
  {
    exists i :: OccursAt(ua, "Trident", i) && i + 7 <= j <= |ua| && NoLineTerminator(ua, i + 7, j)
  }

  lemma ArmedStep(ua: string, j: nat)
    requires j < |ua|
    ensures ArmedAt(ua, j + 1) <==>
              OccursAt(ua, "Trident", j + 1 - 7) || (ArmedAt(ua, j) && !IsLineTerminator(ua[j]))
  {
  }

  /** One left-to-right pass for `/Trident.*rv:11\./`; `armed` says
      whether position `j` can be reached by `Trident.*`. */
  function TridentScan(ua: string, j: nat, armed: bool): (r: bool)
    requires j <= |ua|
    requires armed == ArmedAt(ua, j)
    ensures r <==> exists k :: j <= k && ArmedAt(ua, k) && OccursAt(ua, "rv:11.", k)
    decreases |ua| - j
  {
    if armed && OccursAt(ua, "rv:11.", j) then true
    else if j == |ua| then false
    else
      ArmedStep(ua, j);
      TridentScan(ua, j + 1, OccursAt(ua, "Trident", j + 1 - 7) || (armed && !IsLineTerminator(ua[j])))
  }

  /** `!!ua.match(/Trident.*rv:11\./)` */
  predicate TridentMarker(ua: string)
    ensures TridentMarker(ua) <==> TridentRegexMatches(ua)
  {
    assert !ArmedAt(ua, 0);
    TridentScanMeansMatch(ua);
    TridentScan(ua, 0, false)
  }

  lemma TridentScanMeansMatch(ua: string)
    ensures (exists k :: 0 <= k && ArmedAt(ua, k) && OccursAt(ua, "rv:11.", k)) <==> TridentRegexMatches(ua)
  {
  }

  /** `/Edge\/(1[2678])./i` matches at `i`. */
  predicate EdgeAt(ua: string, i: int)
  {
    0 <= i && i + 8 <= |ua| &&
    SameIgnoringCase(ua[i], 'E') && SameIgnoringCase(ua[i + 1], 'd') &&
    SameIgnoringCase(ua[i + 2], 'g') && SameIgnoringCase(ua[i + 3], 'e') &&
    ua[i + 4] == '/' && ua[i + 5] == '1' && ua[i + 6] in "2678" &&
    !IsLineTerminator(ua[i + 7])
  }

  ghost predicate EdgeRegexMatches(ua: string)
  {
    exists i :: EdgeAt(ua, i)
  }

  /** Tries the Edge pattern at every start position from `i` on. */
  function EdgeScan(ua: string, i: nat): (r: bool)
    requires i <= |ua|
    ensures r <==> exists k :: i <= k && EdgeAt(ua, k)
    decreases |ua| - i
  {
    if i + 8 > |ua| then false
    else EdgeAt(ua, i) || EdgeScan(ua, i + 1)
  }

  /** `!!ua.match(/Edge\/(1[2678])./i)` */
  predicate EdgeMarker(ua: string)
    ensures EdgeMarker(ua) <==> EdgeRegexMatches(ua)
  {
    EdgeScan(ua, 0)
  }

  /** Internet Explorer or legacy Edge, by the three tests of the source. */
  ghost predicate MicrosoftSpec(ua: string)
  {
    ((exists k :: OccursAt(ua, "MSIE ", k)) && !OccursAt(ua, "MSIE ", 0))
    || TridentRegexMatches(ua)
    || EdgeRegexMatches(ua)
  }

  function IsMicrosoftBrowser(ua: string): (r: bool)
    ensures r <==> MicrosoftSpec(ua)
  {
    MsieMarker(ua) || TridentMarker(ua) || EdgeMarker(ua)
  }

  // ---------------------------------------------------------------------
  // Safari and the Safari 11 WebKit engine
  // ---------------------------------------------------------------------

  /** `ua.indexOf("Safari") !== -1 && ua.indexOf("Chrome") === -1` */
  predicate IsSafariCandidate(ua: string)
    ensures IsSafariCandidate(ua) <==>
              (exists k :: OccursAt(ua, "Safari", k)) && forall k :: !OccursAt(ua, "Chrome", k)
  {
    IndexOf(ua, "Safari") != -1 && IndexOf(ua, "Chrome") == -1
  }

  /** `Version\/(\d*\.\d*)` matches starting at `i`: "Version/", some
      digits, then a dot (the trailing `\d*` always matches). */
  ghost predicate VersionRegexAt(ua: string, i: int)
  {
    OccursAt(ua, "Version/", i) &&
    exists k :: i + 8 <= k < |ua| && AllDigits(ua, i + 8, k) && ua[k] == '.'
  }

  /** The first match of the version regex, which is the one `match` returns. */
  ghost predicate LeftmostVersionMatch(ua: string, i: int)
  {
    VersionRegexAt(ua, i) && forall k :: 0 <= k < i ==> !VersionRegexAt(ua, k)
  }

  /** Where the greedy `\d*` after "Version/" stops. */
  function VersionDot(ua: string, i: nat): (d: nat)
    requires OccursAt(ua, "Version/", i)
    ensures i + 8 <= d <= |ua|
  {
    i + 8 + DigitRun(ua, i + 8)
  }

  predicate VersionAt(ua: string, i: nat)
    ensures VersionAt(ua, i) <==> VersionRegexAt(ua, i)
  {
    if OccursAt(ua, "Version/", i) then
      var d := VersionDot(ua, i);
      assert VersionRegexAt(ua, i) ==> d < |ua| && ua[d] == '.' by {
        if VersionRegexAt(ua, i) {
          var k :| i + 8 <= k < |ua| && AllDigits(ua, i + 8, k) && ua[k] == '.';
          assert !IsDigit(ua[k]);
          assert k == d;
        }
      }
      d < |ua| && ua[d] == '.'
    else false
  }

  /** The first index at or after `from` where the version regex matches. */
  function FirstVersionMatch(ua: string, from: nat): (r: Option<nat>)
    requires from <= |ua|
    ensures r.None? <==> forall k :: from <= k ==> !VersionRegexAt(ua, k)
    ensures r.Some? ==> from <= r.value && VersionRegexAt(ua, r.value) &&
                        forall k :: from <= k < r.value ==> !VersionRegexAt(ua, k)
    decreases |ua| - from
  {
    if from == |ua| then None
    else if VersionAt(ua, from) then Some(from)
    else FirstVersionMatch(ua, from + 1)
  }

  /** The text of capture group 1 of a version match at `i`: the digits,
      the dot, and the digits after the dot. */
  function VersionCapture(ua: string, i: nat): (c: string)
    requires VersionAt(ua, i)
    ensures |c| > VersionDot(ua, i) - (i + 8)
    ensures c[..VersionDot(ua, i) - (i + 8)] == ua[i + 8 .. VersionDot(ua, i)]
    ensures c[VersionDot(ua, i) - (i + 8)] == '.'
    ensures DigitRun(c, 0) == VersionDot(ua, i) - (i + 8)
    ensures IsDecimalText(c)
  {
    var d := VersionDot(ua, i);
    var e := d + 1 + DigitRun(ua, d + 1);
    DigitRunInSlice(ua, i + 8, e, 0);
    DigitRunInSlice(ua, i + 8, e, d + 1 - (i + 8));
    ua[i + 8 .. e]
  }

  /** The digits the greedy `\d*` after "Version/" consumes. */
  function VersionDigits(ua: string, i: nat): (ds: string)
    requires OccursAt(ua, "Version/", i)
    ensures forall k :: 0 <= k < |ds| ==> IsDigit(ds[k])
  {
    var d := VersionDot(ua, i);
    DigitSlice(ua, i + 8, d);
    ua[i + 8 .. d]
  }

  /** `parseInt` of the captured version: the value of the digits before
      the dot, or NaN when the capture starts with the dot. */
  function VersionValue(ua: string, i: nat): (r: JsNumber)
    requires VersionAt(ua, i)
    ensures r == if |VersionDigits(ua, i)| == 0 then NaN else Num(DecimalValue(VersionDigits(ua, i)))
  {
    var c := VersionCapture(ua, i);
    var ds := VersionDigits(ua, i);
    assert forall k :: 0 <= k < |ds| ==> c[k] == c[..|ds|][k];
    assert DigitRun(c, 0) == |ds|;
    assert c[..|ds|] == ds;
    ParseInt(c)
  }

  /** `$detectSafariVersion`: -1 for a non-Safari string or one without a
      version match, otherwise `parseInt` of the captured version, which
      is NaN when the capture starts with the dot. */
  function DetectSafariVersion(ua: string): (r: JsNumber)
    ensures !IsSafariCandidate(ua) ==> r == Num(-1)
    ensures IsSafariCandidate(ua) && (forall i :: !VersionRegexAt(ua, i)) ==> r == Num(-1)
    ensures GreaterThan(r, -1) <==>
              IsSafariCandidate(ua) && exists i :: LeftmostVersionMatch(ua, i) && IsDigit(ua[i + 8])
    ensures r.NaN? <==>
              IsSafariCandidate(ua) && exists i :: LeftmostVersionMatch(ua, i) && !IsDigit(ua[i + 8])
    ensures forall i :: IsSafariCandidate(ua) && LeftmostVersionMatch(ua, i) ==>
              VersionAt(ua, i) && r == VersionValue(ua, i)
  {
    if IsSafariCandidate(ua) then
      match FirstVersionMatch(ua, 0)
      case None => Num(-1)
      case Some(i) =>
        assert LeftmostVersionMatch(ua, i);
        assert forall j :: LeftmostVersionMatch(ua, j) ==> j == i;
        VersionValue(ua, i)
    else Num(-1)
  }

  /** Safari 11 WebKit by the source's reading: a Safari version above -1,
      or Chrome ("CriOS") or Firefox ("FxiOS") on iOS. */
  ghost predicate SafariWebkitSpec(ua: string)
  {
    (IsSafariCandidate(ua) && exists i :: LeftmostVersionMatch(ua, i) && IsDigit(ua[i + 8]))
    || (exists k :: OccursAt(ua, "CriOS", k))
    || (exists k :: OccursAt(ua, "FxiOS", k))
  }

  /** `$detectSafariWebkit` */
  function DetectSafariWebkit(ua: string): (r: bool)
    ensures r <==> SafariWebkitSpec(ua)
  {
    GreaterThan(DetectSafariVersion(ua), -1) || Contains(ua, "CriOS") || Contains(ua, "FxiOS")
  }

  /** `isBrowserWithBadMarkerSupport`, computed for a given user agent. */
  function IsBrowserWithBadMarkerSupport(ua: string): (r: bool)
    ensures r <==> MicrosoftSpec(ua) || SafariWebkitSpec(ua)
  {
    IsMicrosoftBrowser(ua) || DetectSafariWebkit(ua)
  }

  // ---------------------------------------------------------------------
  // Properties
  // ---------------------------------------------------------------------

  /** A user agent naming Chrome, with none of the Microsoft markers and
      neither iOS marker, has good marker support: "Chrome" rules out the
      Safari version test. */
  lemma ChromeHasGoodMarkerSupport(ua: string)
    requires Contains(ua, "Chrome")
    requires !IsMicrosoftBrowser(ua)
    requires !Contains(ua, "CriOS") && !Contains(ua, "FxiOS")
    ensures !IsBrowserWithBadMarkerSupport(ua)
  {
  }

  /** The characters of `prefix + "Version/" + major + "." + rest`, by position. */
  lemma VersionTokenLayout(prefix: string, major: string, rest: string)
    ensures var ua := prefix + "Version/" + major + "." + rest;
            var n := |prefix|;
            |ua| == n + 9 + |major| + |rest| &&
            (forall j :: 0 <= j < n ==> ua[j] == prefix[j]) &&
            ua[n .. n + 8] == "Version/" &&
            (forall j :: 0 <= j < |major| ==> ua[n + 8 + j] == major[j]) &&
            ua[n + 8 + |major|] == '.'
  {
  }

  /** When the first "V" opens "Version/<digits>.", that token is the
      leftmost version match. */
  lemma VersionTokenIsLeftmostMatch(prefix: string, major: string, rest: string)
    requires 'V' !in prefix
    requires forall k :: 0 <= k < |major| ==> IsDigit(major[k])
    ensures LeftmostVersionMatch(prefix + "Version/" + major + "." + rest, |prefix|)
  {
    var ua := prefix + "Version/" + major + "." + rest;
    var n := |prefix|;
    var dot := n + 8 + |major|;
    VersionTokenLayout(prefix, major, rest);
    forall k | n + 8 <= k < dot
      ensures IsDigit(ua[k])
    {
      assert ua[k] == major[k - n - 8];
    }
    assert VersionRegexAt(ua, n);
    OccurrenceChars(ua, "Version/");
    forall k | 0 <= k < n
      ensures !VersionRegexAt(ua, k)
    {
      assert ua[k] == prefix[k] && prefix[k] in prefix;
    }
  }

  /** The digits of such a token are what the version regex captures first. */
  lemma VersionTokenDigits(prefix: string, major: string, rest: string)
    requires forall k :: 0 <= k < |major| ==> IsDigit(major[k])
    requires OccursAt(prefix + "Version/" + major + "." + rest, "Version/", |prefix|)
    ensures VersionDigits(prefix + "Version/" + major + "." + rest, |prefix|) == major
  {
    var ua := prefix + "Version/" + major + "." + rest;
    var n := |prefix|;
    VersionTokenLayout(prefix, major, rest);
    var r := DigitRun(ua, n + 8);
    forall k | n + 8 <= k < n + 8 + |major|
      ensures IsDigit(ua[k])
    {
      assert ua[k] == major[k - n - 8];
    }
    assert r == |major|;
    assert ua[n + 8 .. n + 8 + r] == major;
  }

  /** A Safari user agent whose first "V" opens "Version/<digits>." has
      exactly those digits, read as a decimal number, as its version; with
      no digits ("Version/.5") the version is NaN, which is not above -1. */
  lemma VersionTokenDecidesVersion(prefix: string, major: string, rest: string)
    requires 'V' !in prefix
    requires forall k :: 0 <= k < |major| ==> IsDigit(major[k])
    requires IsSafariCandidate(prefix + "Version/" + major + "." + rest)
    ensures DetectSafariVersion(prefix + "Version/" + major + "." + rest) ==
              if |major| == 0 then NaN else Num(DecimalValue(major))
  {
    VersionTokenIsLeftmostMatch(prefix, major, rest);
    VersionTokenDigits(prefix, major, rest);
  }

  /** Safari 11 on macOS: version 11, bad marker support. */
  lemma Safari11HasBadMarkerSupport()
    ensures DetectSafariVersion(Safari11) == Num(11)
    ensures IsBrowserWithBadMarkerSupport(Safari11)
  {
    Safari11Version();
    assert DetectSafariWebkit(Safari11);
  }

  lemma Safari11Version()
    ensures DetectSafariVersion(Safari11) == Num(11)
  {
    Safari11IsSafariCandidate();
    Eleven();
    Safari11PlatformLacksV();
    VersionTokenDecidesVersion(Safari11Platform, "11", Safari11Rest);
  }

  lemma Eleven()
    ensures forall k :: 0 <= k < |"11"| ==> IsDigit("11"[k])
    ensures DecimalValue("11") == 11
  {
  }

  lemma Safari11PlatformLacksV()
    ensures 'V' !in Safari11Platform
  {
  }

  lemma Safari11IsSafariCandidate()
    ensures IsSafariCandidate(Safari11)
  {
    assert 'C' !in Safari11;
    OccurrenceHasChar(Safari11, "Chrome", 0);
    assert OccursAt("Safari/", "Safari", 0);
    OccursAfterPrefix("0 ", "Safari/", "Safari", 0);
    OccursBeforeSuffix("0 " + "Safari/", "604.1.38", "Safari", 2);
    OccursAfterPrefix(Safari11Platform + "Version/" + "11" + ".", Safari11Rest, "Safari", 2);
  }

  /** Chrome on a desktop: good marker support. */
  lemma DesktopChromeHasGoodMarkerSupport()
    ensures DetectSafariVersion(DesktopChrome) == Num(-1)
    ensures !IsBrowserWithBadMarkerSupport(DesktopChrome)
  {
    DesktopChromeIsNotMicrosoft();
    DesktopChromeNamesChromeOnly();
    ChromeHasGoodMarkerSupport(DesktopChrome);
  }

  lemma DesktopChromeIsNotMicrosoft()
    ensures !IsMicrosoftBrowser(DesktopChrome)
  {
    DesktopChromeLacksMsieAndTrident();
    DesktopChromeLacksEdge();
  }

  lemma DesktopChromeLacksMsieAndTrident()
    ensures forall k :: !OccursAt(DesktopChrome, "MSIE ", k)
    ensures !TridentRegexMatches(DesktopChrome)
  {
    DesktopChromeLacksChars();
    OccurrenceHasChar(DesktopChrome, "MSIE ", 2);
    OccurrenceHasChar(DesktopChrome, "rv:11.", 2);
  }

  /** The Edge pattern needs "/1", which the string lacks. */
  lemma DesktopChromeLacksEdge()
    ensures !EdgeRegexMatches(DesktopChrome)
  {
    DesktopChromeLacksChars();
    OccurrenceHasChar(DesktopChromeName, "/1", 1);
    OccurrenceHasChar(DesktopChromeSystem, "/1", 0);
    OccurrenceHasChar(DesktopChromeEngine, "/1", 1);
    PairOccurrencesInConcat(DesktopChromeName, DesktopChromeSystem, "/1");
    PairOccurrencesInConcat(DesktopChromeName + DesktopChromeSystem, DesktopChromeEngine, "/1");
    EdgeNeedsSlashOne(DesktopChrome);
  }

  lemma DesktopChromeNamesChromeOnly()
    ensures Contains(DesktopChrome, "Chrome")
    ensures !Contains(DesktopChrome, "CriOS") && !Contains(DesktopChrome, "FxiOS")
  {
    DesktopChromeLacksChars();
    OccurrenceHasChar(DesktopChrome, "CriOS", 3);
    OccurrenceHasChar(DesktopChrome, "FxiOS", 3);
    assert OccursAt("Chrome/70.0.", "Chrome", 0);
    OccursBeforeSuffix("Chrome/70.0.", "3538.77 ", "Chrome", 0);
    OccursBeforeSuffix("Chrome/70.0." + "3538.77 ", "Safari/", "Chrome", 0);
    OccursBeforeSuffix("Chrome/70.0." + "3538.77 " + "Safari/", "537.36", "Chrome", 0);
    OccursAfterPrefix(DesktopChromeWebKit, DesktopChromeProduct, "Chrome", 0);
    OccursAfterPrefix(DesktopChromeName + DesktopChromeSystem, DesktopChromeEngine,
                      "Chrome", |DesktopChromeWebKit|);
  }

  lemma DesktopChromeLacksChars()
    ensures 'I' !in DesktopChrome && ':' !in DesktopChrome && 'O' !in DesktopChrome
    ensures '1' !in DesktopChromeName && '/' !in DesktopChromeSystem && '1' !in DesktopChromeEngine
  {
    DesktopChromePartsLack('I');
    DesktopChromePartsLack(':');
    DesktopChromePartsLack('O');
    DesktopChromeSlashOneApart();
  }

  /** Every "1" sits in the system part, which has no "/". */
  lemma DesktopChromeSlashOneApart()
    ensures '1' !in DesktopChromeName && '/' !in DesktopChromeSystem && '1' !in DesktopChromeEngine
  {
  }

  lemma DesktopChromePartsLack(c: char)
    requires c in "I:O"
    ensures c !in DesktopChrome
  {
  }

  lemma EdgeNeedsSlashOne(ua: string)
    ensures forall i :: EdgeAt(ua, i) ==> OccursAt(ua, "/1", i + 4)
  {
  }

  // Real user-agent strings, written as short pieces so that the
  // verifier can inspect them piece by piece.
  const Safari11Platform: string :=
    "Mozilla/5.0 " + "(Macintosh; " + "Intel Mac " + "OS X 10_13) " +
    "AppleWebKit/" + "604.1.38 " + "(KHTML, " + "like Gecko) "
  const Safari11Rest: string := "0 " + "Safari/" + "604.1.38"
  const Safari11: string := Safari11Platform + "Version/" + "11" + "." + Safari11Rest

  const DesktopChromeName: string := "Mozilla/5.0 " + "(Windows "
  const DesktopChromeSystem: string := "NT 10.0; " + "Win64; " + "x64) "
  const DesktopChromeWebKit: string := "AppleWebKit/" + "537.36 " + "(KHTML, " + "like Gecko) "
  const DesktopChromeProduct: string := "Chrome/70.0." + "3538.77 " + "Safari/" + "537.36"
  const DesktopChromeEngine: string := DesktopChromeWebKit + DesktopChromeProduct
  const DesktopChrome: string := DesktopChromeName + DesktopChromeSystem + DesktopChromeEngine
}
