/**
 * The frontend's URL and duration helpers: platform detection by ordered
 * substring match, YouTube video-id extraction, the thumbnail address, and the
 * clock rendering of a duration. URL parsing itself is outside the model: a
 * helper receives the parsed components, or `None` when parsing throws.
 */
module Helpers {
  import opened Common
  import opened Text

  /** The components of a parsed URL that the helpers read; `v` is the first `v` query parameter. */
  datatype ParsedUrl = ParsedUrl(protocol: string, hostname: string, pathname: string, v: Option<string>)

  /** The host with its first 'www.' removed, wherever it occurs. */
  function StripWww(hostname: string): string {
    ReplaceFirst(hostname, "www.", "")
  }

  // ---------------------------------------------------------------------------
  // Platform detection

  /** The platform table, in the order it is consulted. */
  const Platforms: seq<(string, seq<string>)> := [
    ("youtube", ["youtube.com", "youtu.be", "youtube-nocookie.com"]),
    ("instagram", ["instagram.com", "instagr.am"]),
    ("twitter", ["twitter.com", "x.com", "t.co"]),
    ("tiktok", ["tiktok.com", "vm.tiktok.com"]),
    ("facebook", ["facebook.com", "fb.com", "fb.watch"]),
    ("vimeo", ["vimeo.com"]),
    ("dailymotion", ["dailymotion.com"]),
    ("twitch", ["twitch.tv", "clips.twitch.tv"]),
    ("reddit", ["reddit.com", "v.redd.it"]),
    ("pinterest", ["pinterest.com", "pin.it"])
  ]

  /** Some domain of the list occurs in the host. */
  predicate AnyIncluded(host: string, domains: seq<string>) {
    exists d :: 0 <= d < |domains| && Includes(host, domains[d])
  }

  /** The first platform of the table one of whose domains occurs in the host. */
  function MatchPlatform(table: seq<(string, seq<string>)>, host: string): (r: Option<string>)
    ensures r.None? <==> forall k :: 0 <= k < |table| ==> !AnyIncluded(host, table[k].1)
    ensures r.Some? ==> exists k :: 0 <= k < |table| && table[k].0 == r.value && AnyIncluded(host, table[k].1) &&
                                    forall j :: 0 <= j < k ==> !AnyIncluded(host, table[j].1)
  {
    if table == [] then None
    else if AnyIncluded(host, table[0].1) then Some(table[0].0)
    else
      var r := MatchPlatform(table[1..], host);
      assert forall k :: 1 <= k < |table| ==> table[k] == table[1..][k - 1];
      r
  }

  /** `detectPlatform`: `None` when the URL does not parse, 'other' when no platform matches. */
  function DetectPlatform(parsed: Option<ParsedUrl>): Option<string> {
    match parsed
    case None => None
    case Some(u) =>
      match MatchPlatform(Platforms, StripWww(u.hostname))
      case Some(name) => Some(name)
      case None => Some("other")
  }

  /**
   * Detection fails only for a URL that does not parse; it answers 'other'
   * exactly when no domain of any platform occurs in the host; otherwise it
   * answers the first platform, in table order, with a domain in the host.
   */
  lemma DetectPlatformOutcome(parsed: Option<ParsedUrl>)
    ensures DetectPlatform(parsed).None? <==> parsed.None?
    ensures parsed.Some? ==>
              var host := StripWww(parsed.value.hostname);
              (DetectPlatform(parsed) == Some("other") <==> forall k :: 0 <= k < |Platforms| ==> !AnyIncluded(host, Platforms[k].1))
    ensures parsed.Some? && DetectPlatform(parsed) != Some("other") ==>
              var host := StripWww(parsed.value.hostname);
              exists k :: 0 <= k < |Platforms| && Platforms[k].0 == DetectPlatform(parsed).value &&
                          AnyIncluded(host, Platforms[k].1) && forall j :: 0 <= j < k ==> !AnyIncluded(host, Platforms[j].1)
  {
    if parsed.Some? {
      var host := StripWww(parsed.value.hostname);
      var m := MatchPlatform(Platforms, host);
      if m.Some? {
        var k :| 0 <= k < |Platforms| && Platforms[k].0 == m.value && AnyIncluded(host, Platforms[k].1) &&
                 forall j :: 0 <= j < k ==> !AnyIncluded(host, Platforms[j].1);
        NoPlatformIsOther(k);
      }
    }
  }

  /** No platform of the table is named 'other'. */
  lemma NoPlatformIsOther(k: nat)
    requires k < |Platforms|
    ensures Platforms[k].0 != "other"
  {
  }

  /** A pattern none of whose possible positions starts with its first character does not occur. */
  lemma NotIncluded(s: string, pat: string)
    requires pat != []
    requires forall k :: 0 <= k && k + |pat| <= |s| ==> s[k] != pat[0]
    ensures !Includes(s, pat)
  {
    forall k | 0 <= k <= |s|
      ensures !OccursAt(s, pat, k)
    {
      if k + |pat| <= |s| {
        assert s[k..k + |pat|][0] == s[k];
      }
    }
  }

  /** A leading 'www.' is the one removed. */
  lemma StripLeadingWww(h: string)
    ensures StripWww("www." + h) == h
  {
    var s := "www." + h;
    assert OccursAt(s, "www.", 0);
    assert s[4..] == h;
  }

  /** A host without any 'w' holds no 'www.' and is left as it is. */
  lemma StripWwwWithoutW(h: string)
    requires forall k :: 0 <= k < |h| ==> h[k] != 'w'
    ensures StripWww(h) == h
  {
    NotIncluded(h, "www.");
  }

  /**
   * The host 'reddit.com' holds no 'www.', and loses the leading one of
   * 'www.reddit.com'. The host is a parameter fixed by the precondition rather
   * than a literal in the body, so that the string functions are not unfolded
   * over the literal text.
   */
  lemma StripWwwReddit(h: string)
    requires h == "reddit.com"
    ensures StripWww(h) == h
    ensures StripWww("www.reddit.com") == h
  {
    assert forall k :: 0 <= k < |h| ==> h[k] != 'w';
    StripWwwWithoutW(h);
    WwwReddit(h);
    StripLeadingWww(h);
  }

  /** 'www.reddit.com' is 'reddit.com' behind a 'www.' prefix; kept apart so the literal concatenation is checked alone. */
  lemma WwwReddit(h: string)
    requires h == "reddit.com"
    ensures "www." + h == "www.reddit.com"
  {
  }

  /** No youtube or instagram domain occurs in 'reddit.com', but the twitter domain 't.co' does (host fixed by the precondition, as above). */
  lemma RedditDomains(host: string)
    requires host == "reddit.com"
    ensures !AnyIncluded(host, Platforms[0].1)
    ensures !AnyIncluded(host, Platforms[1].1)
    ensures AnyIncluded(host, Platforms[2].1)
  {
    NotIncluded(host, "youtube.com");
    NotIncluded(host, "youtu.be");
    NotIncluded(host, "youtube-nocookie.com");
    NotIncluded(host, "instagram.com");
    NotIncluded(host, "instagr.am");
    assert OccursAt(host, "t.co", 5);
    assert Platforms[2].1[2] == "t.co";
  }

  /** A URL whose host has a twitter domain and no youtube or instagram domain is detected as twitter. */
  lemma DetectsTwitter(u: ParsedUrl)
    requires !AnyIncluded(StripWww(u.hostname), Platforms[0].1) && !AnyIncluded(StripWww(u.hostname), Platforms[1].1)
    requires AnyIncluded(StripWww(u.hostname), Platforms[2].1)
    ensures DetectPlatform(Some(u)) == Some("twitter")
  {
    var host := StripWww(u.hostname);
    var m := MatchPlatform(Platforms, host);
    var k :| 0 <= k < |Platforms| && Platforms[k].0 == m.value && AnyIncluded(host, Platforms[k].1) &&
             forall j :: 0 <= j < k ==> !AnyIncluded(host, Platforms[j].1);
    assert k == 2;
  }

  /** Overlapping domains resolve by table order: 'reddit.com' contains 't.co', so it is detected as twitter. */
  lemma RedditHostIsTwitter(u: ParsedUrl)
    requires u.hostname == "reddit.com" || u.hostname == "www.reddit.com"
    ensures DetectPlatform(Some(u)) == Some("twitter")
  {
    var host := "reddit.com";
    StripWwwReddit(host);
    RedditDomains(host);
    DetectsTwitter(u);
  }

  // ---------------------------------------------------------------------------
  // YouTube id and thumbnail

  /** `pathname.slice(1)`: the path without its first character. */
  function DropFirst(s: string): string {
    if s == [] then [] else s[1..]
  }

  /**
   * `extractYouTubeId`: for a short-link host the path after its leading '/' up
   * to the first '?', for a youtube.com host the `v` parameter, otherwise none.
   */
  function ExtractYouTubeId(parsed: Option<ParsedUrl>): Option<string> {
    match parsed
    case None => None
    case Some(u) =>
      var host := StripWww(u.hostname);
      if Includes(host, "youtu.be") then Some(Split(DropFirst(u.pathname), '?')[0])
      else if Includes(host, "youtube.com") then u.v
      else None
  }

  /**
   * On a short-link host the id is the path segment after '/', cut at the first
   * '?'; on a youtube.com host that is not a short link it is the `v` parameter;
   * on any other host there is none.
   */
  lemma YouTubeIdCases(protocol: string, hostname: string, id: string, rest: string, v: Option<string>)
    requires '?' !in id
    ensures Includes(StripWww(hostname), "youtu.be") ==>
              ExtractYouTubeId(Some(ParsedUrl(protocol, hostname, "/" + id, v))) == Some(id) &&
              ExtractYouTubeId(Some(ParsedUrl(protocol, hostname, "/" + id + "?" + rest, v))) == Some(id)
    ensures !Includes(StripWww(hostname), "youtu.be") && Includes(StripWww(hostname), "youtube.com") ==>
              ExtractYouTubeId(Some(ParsedUrl(protocol, hostname, rest, v))) == v
    ensures !Includes(StripWww(hostname), "youtu.be") && !Includes(StripWww(hostname), "youtube.com") ==>
              ExtractYouTubeId(Some(ParsedUrl(protocol, hostname, rest, v))).None?
  {
    assert DropFirst("/" + id) == id;
    assert DropFirst("/" + id + "?" + rest) == id + ['?'] + rest;
    SplitAtFirst(id, '?', rest);
    FirstPart(id, '?');
  }

  const ThumbnailPrefix: string := "https://img.youtube.com/vi/"
  const ThumbnailSuffix: string := "/maxresdefault.jpg"

  /** `getYouTubeThumbnail`: the max-resolution still of the video, when there is a non-empty id. */
  function YouTubeThumbnail(parsed: Option<ParsedUrl>): Option<string> {
    var id := ExtractYouTubeId(parsed);
    if Truthy(id) then Some(ThumbnailPrefix + id.value + ThumbnailSuffix) else None
  }

  /** There is a thumbnail exactly when the id is non-empty, and the id can be read back out of its address. */
  lemma ThumbnailCarriesId(parsed: Option<ParsedUrl>)
    ensures YouTubeThumbnail(parsed).Some? <==> Truthy(ExtractYouTubeId(parsed))
    ensures YouTubeThumbnail(parsed).Some? ==>
              var t := YouTubeThumbnail(parsed).value;
              && StartsWith(t, ThumbnailPrefix)
              && |t| == |ThumbnailPrefix| + |ExtractYouTubeId(parsed).value| + |ThumbnailSuffix|
              && t[|ThumbnailPrefix|..|t| - |ThumbnailSuffix|] == ExtractYouTubeId(parsed).value
              && t[|t| - |ThumbnailSuffix|..] == ThumbnailSuffix
  {
    if Truthy(ExtractYouTubeId(parsed)) {
      var id := ExtractYouTubeId(parsed).value;
      var t := ThumbnailPrefix + id + ThumbnailSuffix;
      assert t[..|ThumbnailPrefix|] == ThumbnailPrefix;
      assert t[|ThumbnailPrefix|..|t| - |ThumbnailSuffix|] == id;
    }
  }

  // ---------------------------------------------------------------------------
  // Duration

  /** `padStart(2, '0')`. */
  function Pad2(s: string): string {
    if |s| < 2 then seq(2 - |s|, _ => '0') + s else s
  }

  /** `formatDuration` for whole seconds: '--:--' when absent or zero, else the clock text. */
  function FormatDuration(seconds: Option<nat>): (r: string)
    ensures r == "--:--" <==> seconds.None? || seconds.value == 0
  {
    if seconds.None? || seconds.value == 0 then "--:--"
    else
      var r := Clock(seconds.value);
      assert IsDigit(r[0]) && !IsDigit("--:--"[0]);
      r
  }

  /** The clock text of a duration: 'h:mm:ss' from one hour up, 'm:ss' below. */
  function Clock(s: nat): (r: string)
    ensures r != [] && IsDigit(r[0])
  {
    var hrs, mins, secs := s / 3600, (s % 3600) / 60, s % 60;
    if hrs > 0 then NatToString(hrs) + ":" + Pad2(NatToString(mins)) + ":" + Pad2(NatToString(secs))
    else NatToString(mins) + ":" + Pad2(NatToString(secs))
  }

  /** Reads back a clock text split at ':': each field counts sixty of the next. */
  function ReadClock(fields: seq<string>): nat
    requires forall k :: 0 <= k < |fields| ==> AllDigits(fields[k])
  {
    if fields == [] then 0 else ReadClock(fields[..|fields| - 1]) * 60 + ParseNat(fields[|fields| - 1])
  }

  /** A numeral below 100 padded to two places keeps its value and has exactly two digits. */
  lemma Pad2Numeral(n: nat)
    requires n < 100
    ensures |Pad2(NatToString(n))| == 2 && AllDigits(Pad2(NatToString(n)))
    ensures ParseNat(Pad2(NatToString(n))) == n
  {
    ParseNatToString(n);
    var d := NatToString(n);
    if n < 10 {
      var p := Pad2(d);
      assert p == ['0'] + d;
      assert p[..1] == ['0'];
    } else {
      assert NatToString(n / 10) == [DigitChar(n / 10)];
    }
  }

  /** Numerals hold no ':'. */
  lemma DigitsHaveNoColon(t: string)
    requires AllDigits(t)
    ensures ':' !in t
  {
    assert forall i :: 0 <= i < |t| ==> t[i] != ':';
  }

  /** Three numeral fields joined by ':' split back into themselves and read as hours, minutes, seconds. */
  lemma ReadThreeFields(h: string, m: string, sc: string)
    requires AllDigits(h) && AllDigits(m) && AllDigits(sc)
    ensures Split(h + ":" + m + ":" + sc, ':') == [h, m, sc]
    ensures ReadClock([h, m, sc]) == (ParseNat(h) * 60 + ParseNat(m)) * 60 + ParseNat(sc)
  {
    SplitThree(h, m, sc);
    assert [h, m, sc][..2] == [h, m];
    ReadTwoFields(h, m);
  }

  /** Three ':'-free fields joined by ':' split back into themselves. */
  lemma SplitThree(h: string, m: string, sc: string)
    requires AllDigits(h) && AllDigits(m) && AllDigits(sc)
    ensures Split(h + ":" + m + ":" + sc, ':') == [h, m, sc]
  {
    DigitsHaveNoColon(h);
    DigitsHaveNoColon(m);
    DigitsHaveNoColon(sc);
    assert h + ":" + m + ":" + sc == h + [':'] + (m + [':'] + sc);
    SplitAtFirst(h, ':', m + [':'] + sc);
    SplitTwo(m, sc);
  }

  /** Two ':'-free fields joined by ':' split back into themselves. */
  lemma SplitTwo(m: string, sc: string)
    requires AllDigits(m) && AllDigits(sc)
    ensures Split(m + ":" + sc, ':') == [m, sc]
    ensures Split(m + [':'] + sc, ':') == [m, sc]
  {
    DigitsHaveNoColon(m);
    DigitsHaveNoColon(sc);
    assert m + ":" + sc == m + [':'] + sc;
    SplitAtFirst(m, ':', sc);
    assert Split(sc, ':') == [sc] by {
      SplitJoin([sc], ':');
    }
  }

  /** Two numeral fields joined by ':' split back into themselves and read as minutes, seconds. */
  lemma ReadTwoFields(m: string, sc: string)
    requires AllDigits(m) && AllDigits(sc)
    ensures Split(m + ":" + sc, ':') == [m, sc]
    ensures ReadClock([m, sc]) == ParseNat(m) * 60 + ParseNat(sc)
  {
    SplitTwo(m, sc);
    assert [m][..0] == [];
    assert ReadClock([m]) == ParseNat(m);
    assert [m, sc][..1] == [m];
  }

  /** Fields of a clock text: numerals, each one after the first exactly two digits and below 60. */
  predicate ClockFields(fields: seq<string>) {
    && (forall k :: 0 <= k < |fields| ==> AllDigits(fields[k]))
    && (forall k :: 1 <= k < |fields| ==> |fields[k]| == 2 && ParseNat(fields[k]) < 60)
  }

  /** A numeral with no leading zero: the text `String(n)` gives for the number it reads as. */
  predicate Unpadded(field: string) {
    AllDigits(field) && field == NatToString(ParseNat(field))
  }

  /**
   * A positive duration renders as three fields (hours unpadded, then two-digit
   * minutes and seconds below 60) from one hour up, as two fields (unpadded minutes
   * below 60, two-digit seconds below 60) below; the fields read back as the
   * duration. Since the first field is an unpadded numeral and every field but
   * the first is two digits below 60, no other such text reads back as the same
   * duration.
   */
  lemma FormatDurationReadsBack(s: nat)
    requires s > 0
    ensures var fields := Split(FormatDuration(Some(s)), ':');
      && ClockFields(fields)
      && |fields| == (if s >= 3600 then 3 else 2)
      && Unpadded(fields[0])
      && (|fields| == 2 ==> ParseNat(fields[0]) < 60)
      && ReadClock(fields) == s
  {
    assert FormatDuration(Some(s)) == Clock(s);
    if s >= 3600 {
      LongClockReadsBack(s);
    } else {
      ShortClockReadsBack(s);
    }
  }

  /** From one hour up the clock text is unpadded hours, then minutes and seconds, each two digits and below 60. */
  lemma LongClockReadsBack(s: nat)
    requires s >= 3600
    ensures var fields := Split(Clock(s), ':');
      ClockFields(fields) && |fields| == 3 && Unpadded(fields[0]) && ReadClock(fields) == s
  {
    var hrs, mins, secs := s / 3600, (s % 3600) / 60, s % 60;
    ClockArithmetic(s);
    Pad2Numeral(mins);
    Pad2Numeral(secs);
    ParseNatToString(hrs);
    var hh, mm, ss := NatToString(hrs), Pad2(NatToString(mins)), Pad2(NatToString(secs));
    assert Clock(s) == hh + ":" + mm + ":" + ss;
    ReadThreeFields(hh, mm, ss);
    ThreeClockFields(hh, mm, ss);
  }

  /** Three numerals, the last two of two digits each and below 60, are clock fields. */
  lemma ThreeClockFields(h: string, m: string, sc: string)
    requires AllDigits(h) && AllDigits(m) && AllDigits(sc) && |m| == 2 && |sc| == 2
    requires ParseNat(m) < 60 && ParseNat(sc) < 60
    ensures ClockFields([h, m, sc])
  {
  }

  /** Below one hour the clock text is unpadded minutes below 60 and two-digit seconds below 60. */
  lemma ShortClockReadsBack(s: nat)
    requires s < 3600
    ensures var fields := Split(Clock(s), ':');
      ClockFields(fields) && |fields| == 2 && Unpadded(fields[0]) && ParseNat(fields[0]) < 60
      && ReadClock(fields) == s
  {
    var mins, secs := (s % 3600) / 60, s % 60;
    ClockArithmetic(s);
    Pad2Numeral(secs);
    ParseNatToString(mins);
    var mm, ss := NatToString(mins), Pad2(NatToString(secs));
    assert Clock(s) == mm + ":" + ss;
    ReadTwoFields(mm, ss);
    assert ClockFields([mm, ss]);
  }

  /** The hour, minute and second fields of a duration recompose it; minutes and seconds are below 60. */
  lemma ClockArithmetic(s: nat)
    ensures s / 3600 * 3600 + (s % 3600) / 60 * 60 + s % 60 == s
    ensures (s % 3600) / 60 < 60 && s % 60 < 60
    ensures s / 3600 > 0 <==> s >= 3600
  {
    var q := s % 3600;
    assert s == s / 3600 * 3600 + q;
    assert q == q / 60 * 60 + q % 60;
    assert q % 60 == s % 60 by {
      assert s == (s / 3600 * 60) * 60 + q;
    }
  }
}
