/** The input helpers of src/utils.py: reading the URL list, checking a URL
    and naming an output file. Files are not opened here: a URL-list file is
    the abstract result of each read the source performs on it. */
module Utils {
  import opened Wrappers

  /** A JSON value as json.load returns it. */
  datatype Json =
    | JNull
    | JBool(b: bool)
    | JNumber(literal: string)
    | JString(s: string)
    | JArray(items: seq<Json>)
    | JObject(fields: map<string, Json>)

  /** A URL-list file: whether os.path.exists holds for it (present), the extension
      os.path.splitext gives, the lines that iterating it in text mode yields
      (each still with its line ending), and what json.load makes of it
      (None when json.load raises). */
  datatype UrlFile = UrlFile(present: bool, extension: string, lines: seq<string>, json: Option<Json>)

  /** FileNotFoundError, the JSON decoder's error, the ValueError for a JSON
      value of the wrong shape, and the ValueError for any other extension. */
  datatype LoadError = FileNotFound | JsonDecodeError | JsonShapeError | UnsupportedFormat(extension: string)

  /** What load_url_list returns: the kept lines of a text file, or the JSON
      value found (a list, or whatever the "urls" key holds). */
  datatype UrlList = TextUrls(urls: seq<string>) | JsonUrls(value: Json)

  /** The characters Python's str.strip() removes (str.isspace). */
  predicate IsSpace(c: char) {
    || ('\t' <= c <= '\r')
    || ('\U{001C}' <= c <= ' ')
    || c == '\U{0085}' || c == '\U{00A0}' || c == '\U{1680}'
    || ('\U{2000}' <= c <= '\U{200A}')
    || c == '\U{2028}' || c == '\U{2029}' || c == '\U{202F}' || c == '\U{205F}' || c == '\U{3000}'
  }

  /** s without its leading whitespace. */
  function StripStart(s: string): string
    decreases |s|
  {
    if |s| > 0 && IsSpace(s[0]) then StripStart(s[1..]) else s
  }

  /** s without its trailing whitespace. */
  function StripEnd(s: string): string
    decreases |s|
  {
    if |s| > 0 && IsSpace(s[|s| - 1]) then StripEnd(s[..|s| - 1]) else s
  }

  /** StripStart(s) is a suffix of s that does not start with whitespace,
      and every character it drops is whitespace. */
  lemma {:induction false} StripStartFacts(s: string)
    ensures var r := StripStart(s);
      && |r| <= |s| && r == s[|s| - |r|..]
      && (r == [] || !IsSpace(r[0]))
      && forall i :: 0 <= i < |s| - |r| ==> IsSpace(s[i])
    decreases |s|
  {
    if |s| > 0 && IsSpace(s[0]) {
      StripStartFacts(s[1..]);
    }
  }

  /** StripEnd(s) is a prefix of s that does not end with whitespace, and
      every character it drops is whitespace. */
  lemma {:induction false} StripEndFacts(s: string)
    ensures var r := StripEnd(s);
      && |r| <= |s| && r == s[..|r|]
      && (r == [] || !IsSpace(r[|r| - 1]))
      && forall i :: |r| <= i < |s| ==> IsSpace(s[i])
    decreases |s|
  {
    if |s| > 0 && IsSpace(s[|s| - 1]) {
      StripEndFacts(s[..|s| - 1]);
    }
  }

  /** Python's line.strip(). */
  function Strip(s: string): string {
    StripEnd(StripStart(s))
  }

  /** Strip(s) is the middle of s: what it drops on either side is
      whitespace. */
  lemma StripIsTrimmedMiddle(s: string)
    ensures var i := |s| - |StripStart(s)|;
      var j := i + |Strip(s)|;
      && 0 <= i <= j <= |s| && Strip(s) == s[i..j]
      && (forall k :: 0 <= k < i ==> IsSpace(s[k]))
      && (forall k :: j <= k < |s| ==> IsSpace(s[k]))
  {
    var t := StripStart(s);
    var u := StripEnd(t);
    StripStartFacts(s);
    StripEndFacts(t);
    var i := |s| - |t|;
    var j := i + |u|;
    assert s[i..j] == u by {
      assert t == s[i..];
      assert u == t[..|u|];
    }
    forall k | j <= k < |s| ensures IsSpace(s[k]) {
      assert s[k] == t[k - i];
    }
  }

  /** Strip(s) neither starts nor ends with whitespace. */
  lemma StripHasNoSpaceAtEitherEnd(s: string)
    ensures Strip(s) == [] || (!IsSpace(Strip(s)[0]) && !IsSpace(Strip(s)[|Strip(s)| - 1]))
  {
    var t := StripStart(s);
    var u := StripEnd(t);
    StripStartFacts(s);
    StripEndFacts(t);
    if u != [] {
      assert u[0] == t[0];
    }
  }

  /** A string of whitespace alone strips to nothing. */
  lemma AllSpaceStripsToEmpty(s: string)
    requires forall k :: 0 <= k < |s| ==> IsSpace(s[k])
    ensures Strip(s) == []
  {
    StripStartFacts(s);
  }

  /** Stripping twice changes nothing more. */
  lemma StripIdempotent(s: string)
    ensures Strip(Strip(s)) == Strip(s)
  {
    var t := StripStart(s);
    var r := StripEnd(t);
    StripStartFacts(s);
    StripEndFacts(t);
    if r != [] {
      assert r[0] == t[0];
      assert StripStart(r) == r;
    }
  }

  /** The filter of the list comprehension: a stripped line is kept when it is
      not empty and does not start with '#'. */
  predicate KeepsLine(line: string) {
    var t := Strip(line);
    |t| > 0 && t[0] != '#'
  }

  /** What one line contributes: its stripped text when it is kept. */
  function LineUrls(line: string): seq<string> {
    if KeepsLine(line) then [Strip(line)] else []
  }

  /** The list comprehension of load_url_list over the lines of a text file. */
  function UrlLines(lines: seq<string>): seq<string>
    decreases |lines|
  {
    if lines == [] then [] else LineUrls(lines[0]) + UrlLines(lines[1..])
  }

  /** The filter keeps file order: the lines of a + b give the URLs of a
      followed by those of b. */
  lemma {:induction false} UrlLinesAppend(a: seq<string>, b: seq<string>)
    ensures UrlLines(a + b) == UrlLines(a) + UrlLines(b)
    decreases |a|
  {
    if a == [] {
      assert a + b == b;
    } else {
      var ab := a + b;
      assert ab[0] == a[0] && ab[1..] == a[1..] + b;
      UrlLinesAppend(a[1..], b);
    }
  }

  /** Every URL returned is a kept line, stripped: non-empty, not a comment,
      with no surrounding whitespace. */
  lemma {:induction false} UrlLinesWellFormed(lines: seq<string>)
    ensures forall u :: u in UrlLines(lines) ==> |u| > 0 && u[0] != '#' && Strip(u) == u
    decreases |lines|
  {
    if lines != [] {
      UrlLinesWellFormed(lines[1..]);
      StripIdempotent(lines[0]);
    }
  }

  /** Line k of the file is kept and strips to u. */
  predicate KeptAs(lines: seq<string>, k: int, u: string) {
    0 <= k < |lines| && KeepsLine(lines[k]) && Strip(lines[k]) == u
  }

  lemma KeptAsTail(lines: seq<string>, k: int, u: string)
    requires lines != [] && k >= 1
    ensures KeptAs(lines, k, u) <==> KeptAs(lines[1..], k - 1, u)
  {
  }

  /** A string is among the URLs exactly when some line of the file is kept
      and strips to it. */
  lemma {:induction false} UrlLinesMembers(lines: seq<string>, u: string)
    ensures u in UrlLines(lines) <==> exists k :: KeptAs(lines, k, u)
    decreases |lines|
  {
    if lines != [] {
      UrlLinesMembers(lines[1..], u);
      assert UrlLines(lines) == LineUrls(lines[0]) + UrlLines(lines[1..]);
      assert u in LineUrls(lines[0]) <==> KeptAs(lines, 0, u);
      if exists k :: KeptAs(lines[1..], k, u) {
        var k :| KeptAs(lines[1..], k, u);
        KeptAsTail(lines, k + 1, u);
      }
      if exists k :: KeptAs(lines, k, u) {
        var k :| KeptAs(lines, k, u);
        if k > 0 {
          KeptAsTail(lines, k, u);
        }
      }
    }
  }

  /** ASCII lower-casing; the comparisons below involve ASCII letters only. */
  function LowerChar(c: char): char {
    if 'A' <= c <= 'Z' then (c as int + 32) as char else c
  }

  predicate IsUpper(c: char) {
    'A' <= c <= 'Z'
  }

  /** str.lower() on an extension: no upper-case letter is left, every other
      character is kept, and each letter becomes its own lower-case form. */
  function Lower(s: string): (r: string)
    ensures |r| == |s|
    ensures forall i :: 0 <= i < |r| ==> !IsUpper(r[i])
    ensures forall i :: 0 <= i < |s| && !IsUpper(s[i]) ==> r[i] == s[i]
    ensures forall i :: 0 <= i < |s| && IsUpper(s[i]) ==> r[i] as int - s[i] as int == 'a' as int - 'A' as int
  {
    seq(|s|, i requires 0 <= i < |s| => LowerChar(s[i]))
  }

  /** Lower-casing twice is lower-casing once. */
  lemma LowerIdempotent(s: string)
    ensures Lower(Lower(s)) == Lower(s)
  {
  }

  /** load_url_list over the abstract file. */
  function LoadUrlList(file: UrlFile): Result<UrlList, LoadError> {
    if !file.present then Failure(FileNotFound)
    else
      var ext := Lower(file.extension);
      if ext == ".json" then
        match file.json
        case None => Failure(JsonDecodeError)
        case Some(JArray(items)) => Success(JsonUrls(JArray(items)))
        case Some(JObject(fields)) =>
          if "urls" in fields then Success(JsonUrls(fields["urls"])) else Failure(JsonShapeError)
        case Some(_) => Failure(JsonShapeError)
      else if ext == ".txt" || ext == ".csv" then Success(TextUrls(UrlLines(file.lines)))
      else Failure(UnsupportedFormat(ext))
  }

  /** A missing file is reported before its extension or contents are looked at. */
  lemma MissingFileFirst(file: UrlFile)
    requires !file.present
    ensures LoadUrlList(file) == Failure(FileNotFound)
    ensures forall ext, lines, json :: LoadUrlList(UrlFile(false, ext, lines, json)) == Failure(FileNotFound)
  {
  }

  /** The extension is compared without regard to (ASCII) case, and anything
      but .json, .txt and .csv is a format error naming the lower-cased extension. */
  lemma ExtensionDispatch(file: UrlFile)
    requires file.present
    ensures Lower(file.extension) !in {".json", ".txt", ".csv"} ==>
      LoadUrlList(file) == Failure(UnsupportedFormat(Lower(file.extension)))
    ensures Lower(file.extension) in {".txt", ".csv"} ==>
      LoadUrlList(file) == Success(TextUrls(UrlLines(file.lines)))
    ensures forall ext :: Lower(ext) == Lower(file.extension) ==>
      LoadUrlList(file.(extension := ext)) == LoadUrlList(file)
  {
  }

  /** A JSON list is returned unchanged, a dictionary with "urls" yields that
      value, and any other value (or a decoding failure) is an error. */
  lemma JsonDispatch(file: UrlFile)
    requires file.present && Lower(file.extension) == ".json"
    ensures file.json.Some? && file.json.value.JArray? ==> LoadUrlList(file) == Success(JsonUrls(file.json.value))
    ensures file.json.Some? && file.json.value.JObject? && "urls" in file.json.value.fields ==>
      LoadUrlList(file) == Success(JsonUrls(file.json.value.fields["urls"]))
    ensures LoadUrlList(file).Success? <==>
      file.json.Some? && (file.json.value.JArray? || (file.json.value.JObject? && "urls" in file.json.value.fields))
    ensures file.json.None? ==> LoadUrlList(file) == Failure(JsonDecodeError)
  {
  }

  function StartsWith(s: string, prefix: string): bool {
    |prefix| <= |s| && s[..|prefix|] == prefix
  }

  /** part occurs in s starting at index i. */
  predicate OccursAt(s: string, part: string, i: int) {
    0 <= i <= |s| - |part| && s[i..i + |part|] == part
  }

  lemma OccursAtTail(s: string, part: string, i: int)
    requires |s| > 0 && i >= 1
    ensures OccursAt(s, part, i) <==> OccursAt(s[1..], part, i - 1)
  {
    if i <= |s| - |part| {
      var u := s[i..i + |part|];
      var v := s[1..][i - 1..i - 1 + |part|];
      forall k | 0 <= k < |part| ensures u[k] == v[k] {
        assert u[k] == s[i + k];
      }
      assert u == v;
    }
  }

  /** Python's `part in s` for strings. */
  function Contains(s: string, part: string): (r: bool)
    ensures r <==> exists i :: OccursAt(s, part, i)
    decreases |s|
  {
    if |s| < |part| then false
    else if s[..|part|] == part then
      assert OccursAt(s, part, 0);
      true
    else
      assert !OccursAt(s, part, 0) by {
        assert s[0..|part|] == s[..|part|];
      }
      OccursLater(s, part);
      Contains(s[1..], part)
  }

  /** With no occurrence at the front, part occurs in s exactly when it
      occurs in s[1..]. */
  lemma OccursLater(s: string, part: string)
    requires |s| > 0 && !OccursAt(s, part, 0)
    ensures (exists i :: OccursAt(s, part, i)) <==> exists j :: OccursAt(s[1..], part, j)
  {
    if exists j :: OccursAt(s[1..], part, j) {
      var j :| OccursAt(s[1..], part, j);
      OccursAtTail(s, part, j + 1);
    }
    if exists i :: OccursAt(s, part, i) {
      var i :| OccursAt(s, part, i);
      OccursAtTail(s, part, i);
    }
  }

  /** validate_url: an http:// or https:// prefix and "bizreach.jp" somewhere. */
  function ValidateUrl(url: string): (valid: bool)
    ensures valid <==>
      (StartsWith(url, "http://") || StartsWith(url, "https://"))
      && exists i :: OccursAt(url, "bizreach.jp", i)
  {
    (StartsWith(url, "http://") || StartsWith(url, "https://")) && Contains(url, "bizreach.jp")
  }

  /** create_output_filename with the already formatted timestamp `now`:
      the base name, then "_" and the timestamp when asked for, then the
      extension, each recoverable from the result. */
  function CreateOutputFilename(base: string, extension: string, timestamp: bool, now: string): (name: string)
    ensures !timestamp ==>
      |name| == |base| + |extension| && name[..|base|] == base && name[|base|..] == extension
    ensures timestamp ==>
      && |name| == |base| + 1 + |now| + |extension|
      && name[..|base| + 1] == base + "_"
      && name[|base| + 1..|name| - |extension|] == now
      && name[|name| - |extension|..] == extension
  {
    if timestamp then base + "_" + now + extension else base + extension
  }
}

/** The behaviour the utility tests exercise, stated on the model. */
module UtilsExamples {
  import opened Wrappers
  import opened Utils

  /** A URL as it can be written on a line of its own: not empty, not a
      comment, without surrounding whitespace and without a line break. */
  predicate WellFormedUrl(u: string) {
    |u| > 0 && u[0] != '#' && !IsSpace(u[0]) && !IsSpace(u[|u| - 1]) && NoLineBreak(u)
  }

  /** Text that text-mode reading keeps on one line. */
  predicate NoLineBreak(s: string) {
    '\n' !in s && '\r' !in s
  }

  /** The lines of a file that holds one URL per line. */
  function OnePerLine(urls: seq<string>): seq<string> {
    seq(|urls|, i requires 0 <= i < |urls| => urls[i] + "\n")
  }

  lemma StripLineEnd(u: string)
    requires WellFormedUrl(u)
    ensures Strip(u + "\n") == u
  {
    var line := u + "\n";
    assert line[0] == u[0];
    assert StripStart(line) == line;
    assert IsSpace(line[|line| - 1]) && line[..|line| - 1] == u;
    assert StripEnd(line) == StripEnd(u);
    assert StripEnd(u) == u;
  }

  /** Writing URLs one per line and loading the file gives them back. */
  lemma {:induction false} OnePerLineRoundTrip(urls: seq<string>)
    requires forall u :: u in urls ==> WellFormedUrl(u)
    ensures UrlLines(OnePerLine(urls)) == urls
    decreases |urls|
  {
    if urls != [] {
      StripLineEnd(urls[0]);
      assert OnePerLine(urls)[1..] == OnePerLine(urls[1..]);
      OnePerLineRoundTrip(urls[1..]);
    }
  }

  /** A comment line contributes no URL. */
  lemma CommentLineDropped(comment: string)
    requires NoLineBreak(comment)
    ensures LineUrls("#" + comment + "\n") == []
  {
    var c := "#" + comment + "\n";
    assert c[0] == '#';
    assert StripStart(c) == c;
    StripEndFacts(c);
  }

  /** An empty line contributes no URL. */
  lemma EmptyLineDropped()
    ensures LineUrls("\n") == []
  {
    AllSpaceStripsToEmpty("\n");
  }

  /** A comment line and an empty line contribute no URL. */
  lemma CommentAndEmptyLineContributeNothing(comment: string)
    requires NoLineBreak(comment)
    ensures UrlLines(["#" + comment + "\n", "\n"]) == []
  {
    var lines := ["#" + comment + "\n", "\n"];
    CommentLineDropped(comment);
    EmptyLineDropped();
    assert lines[1..] == ["\n"];
    assert UrlLines(["\n"]) == LineUrls("\n") + UrlLines([]);
  }

  /** The text file of the loading test: URLs, then a comment line and an
      empty line, loads as the URLs alone. */
  lemma CommentAndEmptyLineDropped(urls: seq<string>, comment: string)
    requires forall u :: u in urls ==> WellFormedUrl(u)
    requires NoLineBreak(comment)
    ensures UrlLines(OnePerLine(urls) + ["#" + comment + "\n", "\n"]) == urls
  {
    OnePerLineRoundTrip(urls);
    UrlLinesAppend(OnePerLine(urls), ["#" + comment + "\n", "\n"]);
    CommentAndEmptyLineContributeNothing(comment);
  }

  /** A JSON list and a dictionary holding it under "urls" load the same
      URLs, whatever the letter case of either file's extension. */
  lemma JsonListAndDictionaryAgree(items: seq<Json>, listExt: string, dictExt: string)
    requires Lower(listExt) == ".json" && Lower(dictExt) == ".json"
    ensures
      var urls := JArray(items);
      && LoadUrlList(UrlFile(true, listExt, [], Some(urls))) == Success(JsonUrls(urls))
      && LoadUrlList(UrlFile(true, dictExt, [], Some(JObject(map["urls" := urls])))) == Success(JsonUrls(urls))
  {
  }

  /** A missing file and an .xlsx file are both refused. */
  lemma MissingAndSpreadsheetRefused(lines: seq<string>, json: Option<Json>)
    ensures LoadUrlList(UrlFile(false, ".txt", lines, json)) == Failure(FileNotFound)
    ensures LoadUrlList(UrlFile(true, ".xlsx", lines, json)) == Failure(UnsupportedFormat(".xlsx"))
  {
    assert Lower(".xlsx") == ".xlsx";
  }

  lemma OccursInMiddle(a: string, b: string, c: string)
    ensures OccursAt(a + b + c, b, |a|)
  {
    assert (a + b + c)[|a|..|a| + |b|] == b;
  }

  /** An http:// or https:// address with "bizreach.jp" after the scheme
      is accepted, whatever surrounds it. */
  lemma BizreachUrlAccepted(scheme: string, host: string, path: string)
    requires scheme == "http://" || scheme == "https://"
    ensures ValidateUrl(scheme + host + "bizreach.jp" + path)
  {
    var url := scheme + host + "bizreach.jp" + path;
    assert url[..|scheme|] == scheme;
    assert url == (scheme + host) + "bizreach.jp" + path;
    OccursInMiddle(scheme + host, "bizreach.jp", path);
  }

  /** An address with no letter 'b' in it cannot mention bizreach.jp. */
  lemma UrlWithoutBRejected(url: string)
    requires 'b' !in url
    ensures !ValidateUrl(url)
  {
    forall i | 0 <= i <= |url| - 11 ensures !OccursAt(url, "bizreach.jp", i) {
      assert url[i..i + 11][0] == url[i];
      assert url[i] in url;
    }
  }

  /** An address whose scheme is not http or https is refused. */
  lemma OtherSchemeRejected(scheme: string, rest: string)
    requires |scheme| > 0 && scheme[0] != 'h'
    ensures !ValidateUrl(scheme + rest)
  {
    assert (scheme + rest)[0] == scheme[0];
  }

  /** With a 15-character timestamp the name is base, "_", stamp, extension;
      without one it is base and extension. */
  lemma FilenameExamples(now: string)
    requires |now| == 15
    ensures CreateOutputFilename("test", ".json", false, now) == "test.json"
    ensures var name := CreateOutputFilename("test", ".csv", true, now);
      StartsWith(name, "test_") && name[|name| - 4..] == ".csv" && |name| > 10
  {
  }
}
