/**
 * Command-line interpretation (src/parser.rs): normalising a contest name,
 * taking the contest segment out of a contest URL, and merging the `--url`,
 * `--name` and `--type` flags of the default command and of `add_test`.
 * The flags arrive as `Option<string>` values instead of clap matches.
 */
module Parser {
  import opened Wrappers
  import opened Text
  import opened Contests

  // ---------------------------------------------------------------- contest names

  /** A name in canonical form (series token, three digits), or any other name. */
  datatype ContestKind = AXC(series: string, num: string) | Other(name: string)

  predicate IsSeparator(c: char) { c == '-' || c == '_' }

  /** Case-insensitive `a[bgr]c`. */
  predicate SeriesMatches(s: string)
  {
    |s| == 3 && (s[0] == 'a' || s[0] == 'A') && s[1] in "bBgGrR" && (s[2] == 'c' || s[2] == 'C')
  }

  /**
   * The whole of `name` matches `(?i)^(a[bgr]c)[-_]?([0-9]{3})$`: a series
   * token in any case, at most one `-` or `_`, exactly three ASCII digits.
   */
  predicate MatchesAxc(name: string)
  {
    && (|name| == 6 || |name| == 7)
    && SeriesMatches(name[..3])
    && (|name| == 7 ==> IsSeparator(name[3]))
    && AllDigits(name[|name| - 3..])
  }

  lemma LowerSeriesIsSeries(s: string)
    requires SeriesMatches(s)
    ensures SeriesMatches(ToLower(s)) && IsSeries(ToLower(s))
  {
    var l := ToLower(s);
    assert l == [l[0], l[1], l[2]];
  }

  /**
   * `format_contest_name`. A canonical name gives its lower-cased series and
   * its three digits; any other name is lower-cased with every `_` turned
   * into `-`. A canonical result always satisfies what `Contests::from`
   * asserts and unwraps.
   */
  function FormatContestName(name: string): (r: ContestKind)
    ensures r.AXC? <==> MatchesAxc(name)
    ensures r.AXC? ==> r.series == ToLower(name[..3]) && r.num == name[|name| - 3..]
    ensures r.AXC? ==> IsSeries(r.series) && |r.num| == 3 && AllDigits(r.num)
    ensures r.AXC? ==> ParseU32(r.num).Some? && ParseU32(r.num).value <= 999
    ensures r.Other? ==> |r.name| == |name|
    ensures r.Other? ==> forall i :: 0 <= i < |name| ==>
      r.name[i] == if name[i] == '_' then '-' else AsciiLowerChar(name[i])
    ensures r.Other? ==> forall i :: 0 <= i < |r.name| ==> r.name[i] != '_' && !IsAsciiUpper(r.name[i])
  {
    if MatchesAxc(name) then
      var num := name[|name| - 3..];
      LowerSeriesIsSeries(name[..3]);
      assert Pow10(3) == 1000;
      AXC(ToLower(name[..3]), num)
    else
      ReplaceChar(ToLower(name), '_', '-');
      Other(Replace(ToLower(name), "_", "-"))
  }

  /** Every canonical name meets the precondition of `Contests::from`, whose series it keeps. */
  lemma AxcSatisfiesFrom(name: string)
    requires FormatContestName(name).AXC?
    ensures var k := FormatContestName(name);
      IsSeries(k.series) && ParseU32(k.num).Some? && Value(From(k.series, k.num)) == k.series
  {
  }

  /** The directory name a parsed name stands for: `{series}-{num}`, or the free-form name. */
  function NormalName(k: ContestKind): string
  {
    match k
    case AXC(series, num) => series + "-" + num
    case Other(name) => name
  }

  /** The kind a name implies, if it is canonical. */
  function KindOfName(name: string): (r: Option<Contest>)
    ensures r.Some? <==> MatchesAxc(name)
  {
    var k := FormatContestName(name);
    if k.AXC? then Some(From(k.series, k.num)) else None
  }

  /**
   * A canonical name normalises to `{series}-{num}` in lower case whatever its
   * case and separator: `ABC_123`, `abc123` and `abc-123` all become `abc-123`.
   */
  lemma SeparatorAndCaseIrrelevant(series: string, num: string)
    requires SeriesMatches(series) && |num| == 3 && AllDigits(num)
    ensures NormalName(FormatContestName(series + num)) == ToLower(series) + "-" + num
    ensures NormalName(FormatContestName(series + "-" + num)) == ToLower(series) + "-" + num
    ensures NormalName(FormatContestName(series + "_" + num)) == ToLower(series) + "-" + num
  {
    var plain, dashed, underscored := series + num, series + "-" + num, series + "_" + num;
    assert plain[..3] == series && plain[|plain| - 3..] == num;
    assert dashed[..3] == series && dashed[3] == '-' && dashed[|dashed| - 3..] == num;
    assert underscored[..3] == series && underscored[3] == '_' && underscored[|underscored| - 3..] == num;
    assert MatchesAxc(plain) && MatchesAxc(dashed) && MatchesAxc(underscored);
  }

  lemma NormalisedCharKeepsDigit(c: char)
    ensures IsDigit(if c == '_' then '-' else AsciiLowerChar(c)) <==> IsDigit(c)
  {
  }

  /** Lower-casing and turning `_` into `-` keeps a name canonical or non-canonical. */
  lemma NormalisingKeepsMatch(name: string, n: string)
    requires |n| == |name|
    requires forall i :: 0 <= i < |name| ==> n[i] == if name[i] == '_' then '-' else AsciiLowerChar(name[i])
    ensures MatchesAxc(n) <==> MatchesAxc(name)
  {
    if |name| == 6 || |name| == 7 {
      assert n[..3] == [n[0], n[1], n[2]];
      assert name[..3] == [name[0], name[1], name[2]];
      assert SeriesMatches(n[..3]) <==> SeriesMatches(name[..3]);
      var tn, tm := n[|n| - 3..], name[|name| - 3..];
      forall j | 0 <= j < 3
        ensures IsDigit(tn[j]) <==> IsDigit(tm[j])
      {
        var i := |name| - 3 + j;
        assert tn[j] == n[i] && tm[j] == name[i];
        NormalisedCharKeepsDigit(name[i]);
      }
      assert AllDigits(tn) <==> AllDigits(tm);
    }
  }

  /**
   * Normalisation is idempotent: parsing the name a parse produced gives the
   * same parse again, for canonical and free-form names alike.
   */
  lemma NormalNameIsFixedPoint(name: string)
    ensures FormatContestName(NormalName(FormatContestName(name))) == FormatContestName(name)
  {
    var k := FormatContestName(name);
    var n := NormalName(k);
    match k
    case AXC(series, num) =>
      assert n[..3] == series && n[3] == '-' && n[|n| - 3..] == num;
      LowerSeriesIsSeries(name[..3]);
      assert MatchesAxc(n);
      ToLowerUnchanged(series);
    case Other(_) =>
      NormalisingKeepsMatch(name, n);
      ToLowerUnchanged(n);
      ReplaceChar(n, '_', '-');
      assert Replace(ToLower(n), "_", "-") == n;
  }

  // ---------------------------------------------------------------- contest URLs

  const CONTESTS_PATH: string := "/contests/"
  const HOST: string := "atcoder.jp"
  const CONTEST_URL_PREFIX: string := "https://atcoder.jp/contests/"

  /** The contest URL the tool rebuilds from a segment. */
  function ContestUrl(segment: string): string
  {
    CONTEST_URL_PREFIX + segment
  }

  /** What follows `https?://`, if the URL starts that way. */
  function AfterScheme(url: string): Option<string>
  {
    if StartsWith(url, "https://") then Some(url[8..])
    else if StartsWith(url, "http://") then Some(url[7..])
    else None
  }

  /** The length of the longest prefix of `rest` without `/`. */
  function SegmentEnd(rest: string): (j: nat)
    ensures j <= |rest|
    ensures forall i :: 0 <= i < j ==> rest[i] != '/'
    ensures j < |rest| ==> rest[j] == '/'
  {
    if rest == [] || rest[0] == '/' then 0 else 1 + SegmentEnd(rest[1..])
  }

  /** A run without `/` ends where the text after it starts with `/`, or at the end. */
  lemma SegmentEndAt(a: string, b: string)
    requires '/' !in a && (b == [] || b[0] == '/')
    ensures SegmentEnd(a + b) == |a|
  {
    var j := SegmentEnd(a + b);
    assert forall i :: 0 <= i < |a| ==> (a + b)[i] == a[i] && a[i] in a;
    assert j >= |a|;
    if b != [] {
      assert (a + b)[|a|] == '/';
    }
  }

  /**
   * `([^/]+).*$` after `/contests/`: the capture is the longest prefix without
   * `/`, which must be non-empty; `.` does not match a newline, so what
   * follows the capture must hold none.
   */
  function CaptureSegment(rest: string): (r: Result<string, ()>)
    ensures r.Ok? <==> SegmentEnd(rest) >= 1 && '\n' !in rest[SegmentEnd(rest)..]
    ensures r.Ok? ==> r.value != [] && '/' !in r.value && StartsWith(rest, r.value)
    ensures r.Ok? ==> |r.value| == |rest| || rest[|r.value|] == '/'
  {
    var j := SegmentEnd(rest);
    if j >= 1 && '\n' !in rest[j..] then Ok(rest[..j]) else Err(())
  }

  /** A segment followed by nothing, or by a path without a newline, is captured whole. */
  lemma CaptureFollowedBy(segment: string, tail: string)
    requires segment != [] && '/' !in segment
    requires tail == [] || (tail[0] == '/' && '\n' !in tail)
    ensures CaptureSegment(segment + tail) == Ok(segment)
  {
    SegmentEndAt(segment, tail);
    assert (segment + tail)[..|segment|] == segment;
    assert (segment + tail)[|segment|..] == tail;
  }

  /** `atcoder.jp` read as the regular expression `atcoder.jp`: the dot matches any character but a newline. */
  predicate HostMatchesAsWritten(host: string)
  {
    |host| == 10 && host[..7] == "atcoder" && host[7] != '\n' && host[8..] == "jp"
  }

  /**
   * `extract_name_from_url` as written: `^https?://atcoder.jp/contests/([^/]+).*$`
   * with its unescaped dot. The commands use this one.
   */
  function ExtractNameFromUrlAsWritten(url: string): (r: Result<string, ()>)
    ensures r.Ok? ==> r.value != [] && '/' !in r.value
  {
    match AfterScheme(url)
    case None => Err(())
    case Some(rest) =>
      if |rest| >= 10 && HostMatchesAsWritten(rest[..10]) && StartsWith(rest[10..], CONTESTS_PATH)
      then CaptureSegment(rest[10 + |CONTESTS_PATH|..])
      else Err(())
  }

  /**
   * `extract_name_from_url` with the dot of `atcoder.jp` matched literally:
   * the non-empty segment after `/contests/`, which holds no `/`.
   */
  function ExtractNameFromUrl(url: string): (r: Result<string, ()>)
    ensures r.Ok? ==> r.value != [] && '/' !in r.value
  {
    match AfterScheme(url)
    case None => Err(())
    case Some(rest) =>
      if |rest| >= 10 && rest[..10] == HOST && StartsWith(rest[10..], CONTESTS_PATH)
      then CaptureSegment(rest[10 + |CONTESTS_PATH|..])
      else Err(())
  }

  /** `https://` and `http://` are each taken off whole. */
  lemma AfterSchemeOf(scheme: string, rest: string)
    requires scheme == "https://" || scheme == "http://"
    ensures AfterScheme(scheme + rest) == Some(rest)
  {
    var url := scheme + rest;
    if scheme == "https://" {
      assert url[..8] == scheme && url[8..] == rest;
    } else {
      assert url[4] == ':';
      assert url[..7] == scheme && url[7..] == rest;
    }
  }

  /** A URL with a scheme is that scheme followed by what comes after it. */
  lemma SchemeThenRest(url: string)
    requires AfterScheme(url).Some?
    ensures url == (if StartsWith(url, "https://") then "https://" else "http://") + AfterScheme(url).value
  {
    if StartsWith(url, "https://") {
      assert url == url[..8] + url[8..];
    } else {
      assert url == url[..7] + url[7..];
    }
  }

  lemma PartsOfRest(host: string, path: string, after: string)
    ensures var rest := host + path + after;
      && rest[..|host|] == host
      && StartsWith(rest[|host|..], path)
      && rest[|host| + |path|..] == after
  {
    var rest := host + path + after;
    assert rest[|host|..][..|path|] == path;
  }

  lemma SplitTwice(s: string, i: nat, j: nat)
    requires i <= j <= |s|
    ensures s == s[..i] + s[i..j] + s[j..]
  {
  }

  lemma Regroup5(a: string, b: string, c: string, d: string, e: string)
    ensures a + b + c + d + e == a + (b + c + (d + e))
  {
  }

  /**
   * A URL made of a scheme, a ten-character host, `/contests/`, a segment and
   * an optional path: the written matcher yields the segment exactly when the
   * host matches `atcoder.jp` with its dot as a wildcard, the corrected one
   * exactly when the host is `atcoder.jp`.
   */
  lemma HostDecidesMatch(scheme: string, host: string, segment: string, tail: string)
    requires scheme == "https://" || scheme == "http://"
    requires |host| == |HOST| && segment != [] && '/' !in segment
    requires tail == [] || (tail[0] == '/' && '\n' !in tail)
    ensures var url := scheme + host + CONTESTS_PATH + segment + tail;
      && ExtractNameFromUrlAsWritten(url) == (if HostMatchesAsWritten(host) then Ok(segment) else Err(()))
      && ExtractNameFromUrl(url) == (if host == HOST then Ok(segment) else Err(()))
  {
    var after := segment + tail;
    var rest := host + CONTESTS_PATH + after;
    Regroup5(scheme, host, CONTESTS_PATH, segment, tail);
    AfterSchemeOf(scheme, rest);
    PartsOfRest(host, CONTESTS_PATH, after);
    CaptureFollowedBy(segment, tail);
  }

  /** A captured segment splits the text after `/contests/` into the segment and a path without a newline. */
  lemma CaptureThenTail(after: string)
    requires CaptureSegment(after).Ok?
    ensures var segment := CaptureSegment(after).value;
      var tail := after[|segment|..];
      && after == segment + tail
      && (tail == [] || (tail[0] == '/' && '\n' !in tail))
  {
    var segment := CaptureSegment(after).value;
    assert |segment| == SegmentEnd(after);
    assert after == after[..|segment|] + after[|segment|..];
  }

  /**
   * The converse of `HostDecidesMatch`: a URL the written matcher accepts is a
   * scheme, a host it admits, `/contests/`, the captured segment, and nothing
   * or a path without a newline.
   */
  lemma AcceptedUrlDecomposes(url: string)
    requires ExtractNameFromUrlAsWritten(url).Ok?
    ensures var rest := AfterScheme(url).value;
      var segment := ExtractNameFromUrlAsWritten(url).value;
      var tail := rest[|HOST| + |CONTESTS_PATH| + |segment|..];
      && |rest| >= |HOST| + |CONTESTS_PATH| + |segment|
      && url == (if StartsWith(url, "https://") then "https://" else "http://") + rest[..|HOST|] + CONTESTS_PATH + segment + tail
      && HostMatchesAsWritten(rest[..|HOST|])
      && (tail == [] || (tail[0] == '/' && '\n' !in tail))
  {
    var rest := AfterScheme(url).value;
    var segment := ExtractNameFromUrlAsWritten(url).value;
    var host, after := rest[..|HOST|], rest[|HOST| + |CONTESTS_PATH|..];
    assert StartsWith(rest[|HOST|..], CONTESTS_PATH);
    assert rest[|HOST|..|HOST| + |CONTESTS_PATH|] == CONTESTS_PATH;
    assert CaptureSegment(after) == Ok(segment);
    CaptureThenTail(after);
    var tail := after[|segment|..];
    assert tail == rest[|HOST| + |CONTESTS_PATH| + |segment|..];
    SplitTwice(rest, |HOST|, |HOST| + |CONTESTS_PATH|);
    SchemeThenRest(url);
    Regroup5(if StartsWith(url, "https://") then "https://" else "http://", host, CONTESTS_PATH, segment, tail);
  }

  /** The URL of a task page, as usually pasted, names its contest under both readings. */
  lemma TaskPageUrlAccepted()
    ensures ExtractNameFromUrlAsWritten("https://" + HOST + CONTESTS_PATH + "abc123" + "/tasks/abc123_a") == Ok("abc123")
    ensures ExtractNameFromUrlAsWritten("http://" + HOST + CONTESTS_PATH + "abc123" + "/tasks/abc123_a") == Ok("abc123")
  {
    assert HostMatchesAsWritten(HOST);
    HostDecidesMatch("https://", HOST, "abc123", "/tasks/abc123_a");
    HostDecidesMatch("http://", HOST, "abc123", "/tasks/abc123_a");
  }

  lemma StartsWithChain(s: string, a: string, b: string)
    requires StartsWith(s, a) && StartsWith(s[|a|..], b)
    ensures StartsWith(s, a + b)
  {
    assert s[..|a| + |b|] == s[..|a|] + s[|a|..][..|b|];
  }

  /** After its `https://` or `http://`, `url` has a host the written pattern admits, then the contest path of `segment`. */
  predicate HasContestPrefixAsWritten(url: string, segment: string)
  {
    && AfterScheme(url).Some?
    && |AfterScheme(url).value| >= |HOST|
    && HostMatchesAsWritten(AfterScheme(url).value[..|HOST|])
    && StartsWith(AfterScheme(url).value[|HOST|..], CONTESTS_PATH + segment)
  }

  /** An accepted URL has, after its scheme and host, the contest path of the segment it yields. */
  lemma ExtractedSegmentFollowsPrefix(url: string)
    requires ExtractNameFromUrlAsWritten(url).Ok?
    ensures HasContestPrefixAsWritten(url, ExtractNameFromUrlAsWritten(url).value)
  {
    var segment := ExtractNameFromUrlAsWritten(url).value;
    var after := AfterScheme(url).value[|HOST|..];
    assert after[|CONTESTS_PATH|..] == AfterScheme(url).value[|HOST| + |CONTESTS_PATH|..];
    StartsWithChain(after, CONTESTS_PATH, segment);
  }

  /** The URL rebuilt from an extracted segment yields that segment again, under both readings. */
  lemma ContestUrlRoundTrip(segment: string)
    requires segment != [] && '/' !in segment
    ensures ExtractNameFromUrlAsWritten(ContestUrl(segment)) == Ok(segment)
    ensures ExtractNameFromUrl(ContestUrl(segment)) == Ok(segment)
  {
    assert ContestUrl(segment) == "https://" + HOST + CONTESTS_PATH + segment + [];
    assert HostMatchesAsWritten(HOST);
    HostDecidesMatch("https://", HOST, segment, []);
  }

  /**
   * Whatever URL a contest was given by, the rebuilt URL names the same
   * contest, and it does so on the host atcoder.jp itself.
   */
  lemma RebuiltUrlStable(url: string)
    requires ExtractNameFromUrlAsWritten(url).Ok?
    ensures ExtractNameFromUrlAsWritten(ContestUrl(ExtractNameFromUrlAsWritten(url).value)) == ExtractNameFromUrlAsWritten(url)
    ensures ExtractNameFromUrl(ContestUrl(ExtractNameFromUrlAsWritten(url).value)) == ExtractNameFromUrlAsWritten(url)
  {
    ContestUrlRoundTrip(ExtractNameFromUrlAsWritten(url).value);
  }

  /** The corrected matcher accepts only what the written one accepts, with the same capture. */
  lemma CorrectedUrlMatchIsNarrower(url: string)
    requires ExtractNameFromUrl(url).Ok?
    ensures ExtractNameFromUrlAsWritten(url) == ExtractNameFromUrl(url)
  {
  }

  /** The unescaped dot lets a host other than atcoder.jp through. */
  lemma UnescapedDotAcceptsOtherHost()
    ensures ExtractNameFromUrlAsWritten("https://" + "atcoderXjp" + "/contests/" + "abc123") == Ok("abc123")
    ensures ExtractNameFromUrl("https://" + "atcoderXjp" + "/contests/" + "abc123").Err?
  {
    var host := "atcoderXjp";
    assert host[..7] == "atcoder" && host[8..] == "jp";
    assert host != HOST by {
      assert host[7] == 'X' && HOST[7] == '.';
    }
    assert "https://" + host + "/contests/" + "abc123" == "https://" + host + CONTESTS_PATH + "abc123" + [];
    HostDecidesMatch("https://", host, "abc123", []);
  }

  // ---------------------------------------------------------------- the default command

  /** The contest description while the flags are still being read. */
  datatype OptionalContestInfo = OptionalContestInfo(name: Option<string>, kind: Option<Contest>, url: Option<string>)

  /** `From<OptionalContestInfo> for Result<ContestInfo, ()>`: complete only with a name and a kind. */
  function ToContestInfo(info: OptionalContestInfo): (r: Result<ContestInfo, ()>)
    ensures r.Ok? <==> info.name.Some? && info.kind.Some?
    ensures r.Ok? ==> r.value.name == info.name.value && r.value.kind == info.kind.value
    ensures r.Ok? ==> r.value.url == info.url
  {
    if info.name.Some? && info.kind.Some? then Ok(ContestInfo(info.name.value, info.kind.value, info.url))
    else Err(())
  }

  /**
   * What reading a contest name does to the description: the name becomes
   * its normal form and, when it is canonical, the kind becomes the one it
   * implies; otherwise the kind stays.
   */
  function WithName(info: OptionalContestInfo, raw: string): (r: OptionalContestInfo)
    ensures r.name == Some(NormalName(FormatContestName(raw)))
    ensures r.kind == if MatchesAxc(raw) then KindOfName(raw) else info.kind
    ensures r.url == info.url
  {
    match FormatContestName(raw)
    case AXC(kind, num) => info.(name := Some(kind + "-" + num), kind := Some(From(kind, num)))
    case Other(name) => info.(name := Some(name))
  }

  /**
   * The default command by precedence, flag by flag: the name comes from
   * `--name` if given, else from the URL; the kind from `--type` if given,
   * else from a canonical `--name`, else from a canonical URL segment.
   * `Contests::from_typename` is not part of this model and is passed in.
   */
  function DefaultArgs(urlArg: Option<string>, nameArg: Option<string>, typeArg: Option<string>,
                       fromTypename: string -> Option<Contest>): Result<ContestInfo, string>
  {
    if urlArg.Some? && ExtractNameFromUrlAsWritten(urlArg.value).Err? then Err("Invalid URL !")
    else if typeArg.Some? && fromTypename(ToLower(typeArg.value)).None? then Err("Invalid Type !")
    else
      var segment := if urlArg.Some? then Some(ExtractNameFromUrlAsWritten(urlArg.value).value) else None;
      var name :=
        if nameArg.Some? then Some(NormalName(FormatContestName(nameArg.value)))
        else if segment.Some? then Some(NormalName(FormatContestName(segment.value)))
        else None;
      var kind :=
        if typeArg.Some? then fromTypename(ToLower(typeArg.value))
        else if nameArg.Some? && KindOfName(nameArg.value).Some? then KindOfName(nameArg.value)
        else if segment.Some? then KindOfName(segment.value)
        else None;
      var url := if segment.Some? then Some(ContestUrl(segment.value)) else None;
      if name.Some? && kind.Some? then Ok(ContestInfo(name.value, kind.value, url))
      else Err("Name and Kind is Required !")
  }

  /**
   * `parse_default_arg`: reads `--url`, then `--name`, then `--type`, each
   * overwriting what the earlier ones set.
   */
  method ParseDefaultArg(urlArg: Option<string>, nameArg: Option<string>, typeArg: Option<string>,
                         fromTypename: string -> Option<Contest>)
    returns (r: Result<ContestInfo, string>)
    ensures r == DefaultArgs(urlArg, nameArg, typeArg, fromTypename)
  {
    var info := OptionalContestInfo(None, None, None);
    if urlArg.Some? {
      var extracted := ExtractNameFromUrlAsWritten(urlArg.value);
      if extracted.Err? {
        return Err("Invalid URL !");
      }
      info := info.(url := Some(ContestUrl(extracted.value)));
      info := WithName(info, extracted.value);
      assert info.kind == KindOfName(extracted.value);
    }
    assert info.url == if urlArg.Some? then Some(ContestUrl(ExtractNameFromUrlAsWritten(urlArg.value).value)) else None;
    if nameArg.Some? {
      info := WithName(info, nameArg.value);
      assert info.name == Some(NormalName(FormatContestName(nameArg.value)));
    }
    if typeArg.Some? {
      var kind := fromTypename(ToLower(typeArg.value));
      if kind.None? {
        return Err("Invalid Type !");
      }
      info := info.(kind := kind);
    }
    ghost var segment := if urlArg.Some? then Some(ExtractNameFromUrlAsWritten(urlArg.value).value) else None;
    assert info.name ==
      if nameArg.Some? then Some(NormalName(FormatContestName(nameArg.value)))
      else if segment.Some? then Some(NormalName(FormatContestName(segment.value)))
      else None;
    assert info.kind ==
      if typeArg.Some? then fromTypename(ToLower(typeArg.value))
      else if nameArg.Some? && KindOfName(nameArg.value).Some? then KindOfName(nameArg.value)
      else if segment.Some? then KindOfName(segment.value)
      else None;
    var converted := ToContestInfo(info);
    r := if converted.Ok? then Ok(converted.value) else Err("Name and Kind is Required !");
  }

  /** `--name` decides the name whenever it is given, and `--type` the kind. */
  lemma DefaultArgsPrecedence(urlArg: Option<string>, nameArg: Option<string>, typeArg: Option<string>,
                              fromTypename: string -> Option<Contest>)
    requires DefaultArgs(urlArg, nameArg, typeArg, fromTypename).Ok?
    ensures var info := DefaultArgs(urlArg, nameArg, typeArg, fromTypename).value;
      && (nameArg.Some? ==> info.name == NormalName(FormatContestName(nameArg.value)))
      && (typeArg.Some? ==> Some(info.kind) == fromTypename(ToLower(typeArg.value)))
      && (typeArg.None? && nameArg.Some? && MatchesAxc(nameArg.value) ==>
            Some(info.kind) == KindOfName(nameArg.value))
      && (urlArg.Some? <==> info.url.Some?)
      && (urlArg.Some? ==> ExtractNameFromUrlAsWritten(info.url.value) == ExtractNameFromUrlAsWritten(urlArg.value))
      && (urlArg.Some? ==> ExtractNameFromUrl(info.url.value) == ExtractNameFromUrlAsWritten(urlArg.value))
  {
    if urlArg.Some? {
      RebuiltUrlStable(urlArg.value);
    }
  }

  /** Without `--url` and `--name` there is no name, so the command is refused. */
  lemma DefaultArgsNeedName(typeArg: Option<string>, fromTypename: string -> Option<Contest>)
    ensures DefaultArgs(None, None, typeArg, fromTypename).Err?
  {
  }

  /** A canonical contest URL alone is enough: name, kind and URL all follow from its segment. */
  lemma DefaultArgsFromUrl(segment: string, fromTypename: string -> Option<Contest>)
    requires MatchesAxc(segment) && '/' !in segment
    ensures DefaultArgs(Some(ContestUrl(segment)), None, None, fromTypename)
      == Ok(ContestInfo(NormalName(FormatContestName(segment)), KindOfName(segment).value, Some(ContestUrl(segment))))
  {
    var url := ContestUrl(segment);
    assert segment != [] by {
      assert |segment| >= 6;
    }
    ContestUrlRoundTrip(segment);
    assert ExtractNameFromUrlAsWritten(url) == Ok(segment);
    assert KindOfName(segment).Some?;
  }

  // ---------------------------------------------------------------- the add_test command

  /** The `--type` values `add_test` accepts, matched after lower-casing. */
  function AddTestKind(t: string): (r: Option<Contest>)
    ensures ToLower(t) == "abc" <==> r == Some(ABC)
    ensures ToLower(t) == "h-abc" <==> r == Some(H_ABC)
    ensures ToLower(t) == "s-abc" <==> r == Some(S_ABC)
    ensures ToLower(t) == "arc" <==> r == Some(ARC)
    ensures ToLower(t) == "agc" <==> r == Some(AGC)
  {
    var l := ToLower(t);
    if l == "abc" then Some(ABC)
    else if l == "h-abc" then Some(H_ABC)
    else if l == "s-abc" then Some(S_ABC)
    else if l == "arc" then Some(ARC)
    else if l == "agc" then Some(AGC)
    else None
  }

  /**
   * `add_test` by precedence: the URL is required and rebuilt from its
   * segment; the kind comes from `--type` if given, else from a canonical
   * segment; the result is the URL with the kind's problem labels.
   */
  function AddTestArgs(urlArg: Option<string>, typeArg: Option<string>): Result<(string, seq<string>), string>
  {
    if urlArg.Some? && ExtractNameFromUrlAsWritten(urlArg.value).Err? then Err("Invalid URL !")
    else if typeArg.Some? && AddTestKind(typeArg.value).None? then Err("invalid kind !")
    else
      var segment := if urlArg.Some? then Some(ExtractNameFromUrlAsWritten(urlArg.value).value) else None;
      var kind :=
        if typeArg.Some? then AddTestKind(typeArg.value)
        else if segment.Some? then KindOfName(segment.value)
        else None;
      if segment.Some? && kind.Some? then Ok((ContestUrl(segment.value), ProblemNames(kind.value)))
      else Err("Invalid Args")
  }

  /** `parse_add_test_arg`: reads `--url`, then `--type`, which overrides the inferred kind. */
  method ParseAddTestArg(urlArg: Option<string>, typeArg: Option<string>)
    returns (r: Result<(string, seq<string>), string>)
    ensures r == AddTestArgs(urlArg, typeArg)
  {
    var url: Option<string> := None;
    var kind: Option<Contest> := None;
    if urlArg.Some? {
      var extracted := ExtractNameFromUrlAsWritten(urlArg.value);
      if extracted.Err? {
        return Err("Invalid URL !");
      }
      url := Some(ContestUrl(extracted.value));
      match FormatContestName(extracted.value)
      case AXC(series, num) =>
        kind := Some(From(series, num));
      case Other(_) =>
    }
    if typeArg.Some? {
      var given := AddTestKind(typeArg.value);
      if given.None? {
        return Err("invalid kind !");
      }
      kind := given;
    }
    if url.Some? && kind.Some? {
      r := Ok((url.value, ProblemNames(kind.value)));
    } else {
      r := Err("Invalid Args");
    }
  }

  /** A missing URL, or a kind that is neither given nor inferable, is refused as invalid arguments. */
  lemma AddTestArgsErrors(urlArg: Option<string>, typeArg: Option<string>)
    ensures urlArg.None? && (typeArg.None? || AddTestKind(typeArg.value).Some?) ==>
      AddTestArgs(urlArg, typeArg) == Err("Invalid Args")
    ensures (urlArg.Some? && ExtractNameFromUrlAsWritten(urlArg.value).Ok? && typeArg.None?
             && !MatchesAxc(ExtractNameFromUrlAsWritten(urlArg.value).value)) ==>
      AddTestArgs(urlArg, typeArg) == Err("Invalid Args")
    ensures AddTestArgs(urlArg, typeArg).Ok? ==>
      |AddTestArgs(urlArg, typeArg).value.1| in {4, 6, 8}
  {
  }
}
