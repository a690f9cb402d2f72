/** The multipart/form-data body of a Telegram request, and the reader that undoes it. */
module Multipart {
  import opened Common

  /** A request argument, as the Telegram client library hands it over. */
  datatype HttpReqArg = HttpReqArg(name: string, value: string, isFile: bool, mimeType: string, fileName: string)

  /** A body part, as a receiver sees it. */
  datatype Part = Part(name: string, filename: Option<string>, contentType: Option<string>, value: string)

  const CRLF: string := "\r\n"
  const DASHES: string := "--"
  const QUOTE: string := "\""
  const DISPOSITION: string := "Content-Disposition: form-data; name=\""
  const FILENAME: string := "; filename=\""
  const CONTENT_TYPE: string := "Content-Type: "

  /** The part an argument stands for: a file has a type, and a file name unless it is empty. */
  function PartOf(arg: HttpReqArg): Part {
    Part(
      arg.name,
      if arg.isFile && arg.fileName != "" then Some(arg.fileName) else None,
      if arg.isFile then Some(arg.mimeType) else None,
      arg.value)
  }

  function PartsOf(args: seq<HttpReqArg>): seq<Part> {
    if args == [] then [] else [PartOf(args[0])] + PartsOf(args[1..])
  }

  // ---------------------------------------------------------------- writing

  function FilenameText(arg: HttpReqArg): string {
    if arg.isFile && arg.fileName != "" then FILENAME + (arg.fileName + QUOTE) else ""
  }

  function TypeText(arg: HttpReqArg): string {
    if arg.isFile then CONTENT_TYPE + (arg.mimeType + CRLF) else ""
  }

  /** The header lines of a part and the empty line after them, followed by `rest`. */
  function HeadText(arg: HttpReqArg, rest: string): string {
    DISPOSITION + (arg.name + (QUOTE + (FilenameText(arg) + (CRLF + (TypeText(arg) + (CRLF + rest))))))
  }

  /** One argument as it is appended. */
  function ArgText(arg: HttpReqArg, boundary: string): string {
    DASHES + boundary + CRLF + HeadText(arg, arg.value + CRLF)
  }

  function Texts(args: seq<HttpReqArg>, boundary: string): seq<string> {
    seq(|args|, k requires 0 <= k < |args| => ArgText(args[k], boundary))
  }

  function Concat(texts: seq<string>): string {
    if texts == [] then "" else Concat(texts[..|texts| - 1]) + texts[|texts| - 1]
  }

  function ArgsText(args: seq<HttpReqArg>, boundary: string): string {
    Concat(Texts(args, boundary))
  }

  lemma ConcatSnoc(texts: seq<string>, text: string)
    ensures Concat(texts + [text]) == Concat(texts) + text
  {
    assert (texts + [text])[..|texts|] == texts;
  }

  function BodyText(args: seq<HttpReqArg>, boundary: string): string {
    ArgsText(args, boundary) + (DASHES + boundary + DASHES + CRLF)
  }

  lemma Appended(body: string, dashes: string, boundary: string, crlf: string, d: string, name: string, q: string, file: string)
    ensures body + dashes + boundary + crlf + d + name + q + file
      == body + (dashes + boundary + crlf + (d + (name + (q + file))))
  {
  }

  lemma AppendedRest(body: string, start: string, d: string, name: string, q: string, file: string, crlf: string,
                     kind: string, value: string)
    ensures body + (start + (d + (name + (q + file)))) + crlf + kind + crlf + value + crlf
      == body + (start + (d + (name + (q + (file + (crlf + (kind + (crlf + (value + crlf)))))))))
  {
  }

  lemma AppendedPair(body: string, a: string, b: string, c: string)
    ensures body + a + b + c == body + (a + (b + c))
  {
  }

  method AppendArg(body: string, arg: HttpReqArg, boundary: string) returns (r: string)
    ensures r == body + ArgText(arg, boundary)
  {
    r := body + DASHES + boundary + CRLF + DISPOSITION + arg.name + QUOTE;
    ghost var named := r;
    if arg.isFile && arg.fileName != "" {
      AppendedPair(r, FILENAME, arg.fileName, QUOTE);
      r := r + FILENAME + arg.fileName + QUOTE;
    }
    assert r == named + FilenameText(arg);
    Appended(body, DASHES, boundary, CRLF, DISPOSITION, arg.name, QUOTE, FilenameText(arg));
    r := r + CRLF;
    ghost var disposed := r;
    if arg.isFile {
      AppendedPair(r, CONTENT_TYPE, arg.mimeType, CRLF);
      r := r + CONTENT_TYPE + arg.mimeType + CRLF;
    }
    assert r == disposed + TypeText(arg);
    r := r + CRLF;
    r := r + arg.value;
    r := r + CRLF;
    AppendedRest(body, DASHES + boundary + CRLF, DISPOSITION, arg.name, QUOTE, FilenameText(arg), CRLF, TypeText(arg), arg.value);
  }

  lemma ArgsSnoc(args: seq<HttpReqArg>, i: nat, boundary: string)
    requires i < |args|
    ensures ArgsText(args[..i + 1], boundary) == ArgsText(args[..i], boundary) + ArgText(args[i], boundary)
  {
    hide ArgText;
    assert Texts(args[..i + 1], boundary) == Texts(args[..i], boundary) + [ArgText(args[i], boundary)];
    ConcatSnoc(Texts(args[..i], boundary), ArgText(args[i], boundary));
  }

  const MULTIPART: string := "multipart/form-data; boundary="

  /** The body and the content type that announces its boundary. */
  method BuildMultipartBody(args: seq<HttpReqArg>, boundary: string) returns (body: string, contentType: string)
    ensures body == BodyText(args, boundary)
    ensures contentType == MULTIPART + boundary
    ensures CrFree(boundary) ==> (Received(contentType, body, args) <==> AllClean(args) && NoValueSplits(args, boundary))
  {
    body := "";
    assert ArgsText(args[..0], boundary) == "";
    hide ArgsText;
    hide ArgText;
    for i := 0 to |args|
      invariant body == ArgsText(args[..i], boundary)
    {
      body := AppendArg(body, args[i], boundary);
      ArgsSnoc(args, i, boundary);
    }
    assert args[..|args|] == args;
    body := body + (DASHES + boundary + DASHES + CRLF);
    contentType := MULTIPART + boundary;
    if CrFree(boundary) {
      MultipartRoundTrip(args, boundary);
    }
  }

  // ---------------------------------------------------------------- reading

  /** What a receiver looks for, after section 4 of RFC 7578. */
  const FORM_FIELD: string := "Content-Disposition: form-data; name=\""
  const FILE_PARAMETER: string := "; filename=\""
  const TYPE_FIELD: string := "Content-Type: "

  /** The first position at which `d` occurs in `s`. */
  function IndexOf(s: string, d: string): (k: Option<nat>)
    ensures k.Some? ==> k.value + |d| <= |s|
  {
    if d <= s then Some(0)
    else if s == "" then None
    else match IndexOf(s[1..], d)
      case None => None
      case Some(k) => Some(k + 1)
  }

  /** The delimiter of section 5.1.1 of RFC 2046; the line break before it belongs to it. */
  function Delimiter(boundary: string): string {
    CRLF + (DASHES + boundary)
  }

  /** A quoted string up to its closing quote; it may not run over the end of its line. */
  function ReadQuoted(s: string): (r: Option<(string, string)>)
    ensures r.Some? ==> Quotable(r.value.0)
  {
    match UpTo(s, '"')
    case None => None
    case Some((text, rest)) => if CrFree(text) then Some((text, rest)) else None
  }

  /** Strings that can stand in the headers of a part. */
  predicate CleanPart(part: Part) {
    && Quotable(part.name)
    && (part.filename.Some? ==> Quotable(part.filename.value))
    && (part.contentType.Some? ==> CrFree(part.contentType.value))
  }

  function ReadFilename(s: string): (r: Option<(Option<string>, string)>)
    ensures r.Some? && r.value.0.Some? ==> Quotable(r.value.0.value)
  {
    match Skip(s, FILE_PARAMETER)
    case None => Some((None, s))
    case Some(s1) =>
      match ReadQuoted(s1)
      case None => None
      case Some((filename, rest)) => Some((Some(filename), rest))
  }

  function ReadType(s: string): (r: Option<(Option<string>, string)>)
    ensures r.Some? && r.value.0.Some? ==> CrFree(r.value.0.value)
  {
    match Skip(s, TYPE_FIELD)
    case None => Some((None, s))
    case Some(s1) =>
      match UpTo(s1, '\r')
      case None => None
      case Some((kind, rest)) => if rest != "" && rest[0] == '\n' then Some((Some(kind), rest[1..])) else None
  }

  /**
   The headers of section 4 of RFC 7578. The part's value is still missing; what follows begins with the
   line break of the empty line, which may already belong to a delimiter.
   */
  function ReadHead(s: string): (r: Option<(Part, string)>)
    ensures r.Some? ==> CleanPart(r.value.0)
  {
    match Skip(s, FORM_FIELD)
    case None => None
    case Some(s1) =>
      match ReadQuoted(s1)
      case None => None
      case Some((name, s2)) =>
        match ReadFilename(s2)
        case None => None
        case Some((filename, s3)) =>
          match Skip(s3, CRLF)
          case None => None
          case Some(s4) =>
            match ReadType(s4)
            case None => None
            case Some((kind, s5)) =>
              if CRLF <= s5 then Some((Part(name, filename, kind, ""), s5)) else None
  }

  /** The parts after a delimiter, up to the closing one; `fuel` bounds their number. */
  function ReadParts(s: string, boundary: string, fuel: nat): (parts: Option<seq<Part>>)
    ensures parts.Some? ==> forall k :: 0 <= k < |parts.value| ==> CleanPart(parts.value[k])
    decreases fuel
  {
    match Skip(s, DASHES)
    case Some(rest) => if rest == CRLF then Some([]) else None
    case None =>
      match Skip(s, CRLF)
      case None => None
      case Some(s1) =>
        match ReadHead(s1)
        case None => None
        case Some((part, s2)) =>
          match IndexOf(s2, Delimiter(boundary))
          case None => None
          case Some(k) => ReadNext(part, s2, k, boundary, fuel)
  }

  function ReadNext(part: Part, s: string, k: nat, boundary: string, fuel: nat): (parts: Option<seq<Part>>)
    ensures parts.Some? && CleanPart(part) ==> forall k :: 0 <= k < |parts.value| ==> CleanPart(parts.value[k])
    decreases fuel, 0
  {
    if fuel == 0 || k + |Delimiter(boundary)| > |s| then None
    else match ReadParts(s[k + |Delimiter(boundary)|..], boundary, fuel - 1)
      case None => None
      case Some(parts) => Some([part.(value := ValueBefore(s, k))] + parts)
  }

  /** The value between the empty line and the delimiter at `k`; a part may have none. */
  function ValueBefore(s: string, k: nat): string
    requires k <= |s|
  {
    if k < |CRLF| then "" else s[|CRLF|..k]
  }

  function ReadMultipart(body: string, boundary: string): Option<seq<Part>> {
    match Skip(body, DASHES + boundary)
    case None => None
    case Some(rest) => ReadParts(rest, boundary, |rest|)
  }

  /** The boundary, as the content type's parameter of section 5.1.1 of RFC 2046 gives it. */
  function BoundaryOf(contentType: string): Option<string> {
    Skip(contentType, "multipart/form-data; boundary=")
  }

  /** The parts carry the arguments: names and values, a type for every file, and a file name if it has one. */
  predicate Carries(parts: seq<Part>, args: seq<HttpReqArg>) {
    |parts| == |args| && forall k :: 0 <= k < |args| ==>
      && parts[k].name == args[k].name
      && parts[k].value == args[k].value
      && parts[k].contentType == (if args[k].isFile then Some(args[k].mimeType) else None)
      && parts[k].filename == (if args[k].isFile && args[k].fileName != "" then Some(args[k].fileName) else None)
  }

  /** A receiver that knows the content type reads parts that carry the arguments. */
  predicate Received(contentType: string, body: string, args: seq<HttpReqArg>) {
    && BoundaryOf(contentType).Some?
    && ReadMultipart(body, BoundaryOf(contentType).value).Some?
    && Carries(ReadMultipart(body, BoundaryOf(contentType).value).value, args)
  }

  // ---------------------------------------------------------------- the delimiter cannot straddle

  predicate Contains(s: string, d: string) {
    IndexOf(s, d).Some?
  }

  predicate CrFree(s: string) {
    forall k :: 0 <= k < |s| ==> s[k] != '\r'
  }

  /**
   The first delimiter of `value` followed by a delimiter is at the value's end, unless the value
   itself contains one: none can straddle the end, because a carriage return occurs in it only first.
   */
  lemma {:induction false} DelimiterEndsValue(value: string, d: string, rest: string)
    requires d != "" && d[0] == '\r' && CrFree(d[1..])
    ensures var k := IndexOf(value + (d + rest), d);
      && k.Some? && k.value <= |value|
      && (k.value == |value| <==> !Contains(value, d))
  {
    var s := value + (d + rest);
    if value == "" {
      assert s == d + rest;
      assert d <= s;
    } else {
      if d <= s {
        Straddle(value, d, rest);
      } else {
        assert !(d <= value) by { PrefixExtends(d, value, d + rest); }
        assert s[1..] == value[1..] + (d + rest);
        DelimiterEndsValue(value[1..], d, rest);
      }
    }
  }

  lemma PrefixExtends(d: string, value: string, rest: string)
    ensures d <= value ==> d <= value + rest
  {
  }

  /** A delimiter at the front of a non-empty value lies inside the value. */
  lemma Straddle(value: string, d: string, rest: string)
    requires value != "" && d != "" && d[0] == '\r' && CrFree(d[1..]) && d <= value + (d + rest)
    ensures d <= value
  {
    assert |value| >= |d| by { Overlap(value, d, rest); }
    var s := value + (d + rest);
    assert forall k :: 0 <= k < |d| ==> d[k] == s[k];
  }

  lemma Overlap(value: string, d: string, rest: string)
    requires value != "" && d != "" && d[0] == '\r' && CrFree(d[1..])
    ensures |value| < |d| ==> !(d <= value + (d + rest))
  {
    if |value| < |d| {
      var s := value + (d + rest);
      assert s[|value|] == '\r' && d[1..][|value| - 1] == d[|value|];
    }
  }

  // ---------------------------------------------------------------- round trip

  predicate Quotable(s: string) {
    CrFree(s) && forall k :: 0 <= k < |s| ==> s[k] != '"'
  }

  /** An argument whose strings can stand in the headers. */
  predicate CleanHeaders(arg: HttpReqArg) {
    CleanPart(PartOf(arg))
  }

  lemma FilenameUndo(arg: HttpReqArg, rest: string)
    requires arg.isFile ==> Quotable(arg.fileName)
    ensures ReadFilename(FilenameText(arg) + (CRLF + rest)) == Some((PartOf(arg).filename, CRLF + rest))
  {
    if arg.isFile && arg.fileName != "" {
      var after := CRLF + rest;
      assert FilenameText(arg) + after == FILENAME + (arg.fileName + (QUOTE + after));
      assert FILENAME == FILE_PARAMETER;
      SkipAppended(FILENAME, arg.fileName + (QUOTE + after));
      UpToStop(arg.fileName, '"', after);
    } else {
      assert FilenameText(arg) + (CRLF + rest) == CRLF + rest;
      assert (CRLF + rest)[0] == '\r' && FILE_PARAMETER[0] == ';';
    }
  }

  lemma TypeUndo(arg: HttpReqArg, rest: string)
    requires arg.isFile ==> CrFree(arg.mimeType)
    ensures ReadType(TypeText(arg) + (CRLF + rest)) == Some((PartOf(arg).contentType, CRLF + rest))
  {
    var after := CRLF + rest;
    if arg.isFile {
      assert TypeText(arg) + after == CONTENT_TYPE + (arg.mimeType + (['\r'] + (['\n'] + after)));
      assert CONTENT_TYPE == TYPE_FIELD;
      SkipAppended(CONTENT_TYPE, arg.mimeType + (['\r'] + (['\n'] + after)));
      UpToStop(arg.mimeType, '\r', ['\n'] + after);
      assert (['\n'] + after)[1..] == after;
    } else {
      assert TypeText(arg) + after == after;
      assert after[0] == '\r' && TYPE_FIELD[0] == 'C';
    }
  }

  lemma HeadUndo(arg: HttpReqArg, rest: string)
    requires CleanHeaders(arg)
    ensures ReadHead(HeadText(arg, rest)) == Some((PartOf(arg).(value := ""), CRLF + rest))
  {
    var s5 := CRLF + rest;
    var s4 := TypeText(arg) + s5;
    var s3 := CRLF + s4;
    var s2 := FilenameText(arg) + s3;
    assert DISPOSITION == FORM_FIELD;
    SkipAppended(DISPOSITION, arg.name + (QUOTE + s2));
    UpToStop(arg.name, '"', s2);
    FilenameUndo(arg, s4);
    SkipAppended(CRLF, s4);
    TypeUndo(arg, rest);
    SkipAppended(CRLF, rest);
  }

  /** The body after its first dash-boundary, with every delimiter whole. */
  function PartsText(args: seq<HttpReqArg>, boundary: string): string {
    if args == [] then DASHES + CRLF
    else CRLF + HeadText(args[0], args[0].value + (Delimiter(boundary) + PartsText(args[1..], boundary)))
  }

  predicate AllClean(args: seq<HttpReqArg>) {
    forall k :: 0 <= k < |args| ==> CleanHeaders(args[k])
  }

  /**
   The value, with the line break of the empty line before it, contains the delimiter: it holds one, or
   begins with the dash-boundary itself.
   */
  predicate Splits(value: string, boundary: string) {
    Contains(CRLF + value, Delimiter(boundary))
  }

  predicate NoValueSplits(args: seq<HttpReqArg>, boundary: string) {
    forall k :: 0 <= k < |args| ==> !Splits(args[k].value, boundary)
  }

  /** One part, read off the front. */
  lemma FirstPart(arg: HttpReqArg, boundary: string, rest: string, fuel: nat)
    requires CleanHeaders(arg) && CrFree(boundary) && fuel > 0
    ensures var s := (CRLF + arg.value) + (Delimiter(boundary) + rest);
      var k := IndexOf(s, Delimiter(boundary));
      && k.Some? && k.value <= |CRLF + arg.value|
      && (k.value == |CRLF + arg.value| <==> !Splits(arg.value, boundary))
      && ReadParts(CRLF + HeadText(arg, arg.value + (Delimiter(boundary) + rest)), boundary, fuel)
         == ReadNext(PartOf(arg).(value := ""), s, k.value, boundary, fuel)
  {
    var d := Delimiter(boundary);
    var s := (CRLF + arg.value) + (d + rest);
    DelimiterShape(boundary);
    DelimiterEndsValue(CRLF + arg.value, d, rest);
    var text := HeadText(arg, arg.value + (d + rest));
    SkipAppended(CRLF, text);
    HeadUndo(arg, arg.value + (d + rest));
    assert CRLF + (arg.value + (d + rest)) == s;
    assert (CRLF + text)[0] == '\r' && DASHES[0] == '-';
  }

  lemma DelimiterShape(boundary: string)
    requires CrFree(boundary)
    ensures Delimiter(boundary) != "" && Delimiter(boundary)[0] == '\r' && CrFree(Delimiter(boundary)[1..])
  {
    var d := Delimiter(boundary);
    forall k | 0 <= k < |d[1..]| ensures d[1..][k] != '\r' {
      if k >= 3 {
        assert d[k + 1] == boundary[k - 3];
      }
    }
  }

  /** Cut at the value's end, the reader goes on with the rest. */
  lemma CutAtEnd(part: Part, value: string, boundary: string, rest: string, fuel: nat)
    requires fuel > 0
    ensures ReadNext(part, (CRLF + value) + (Delimiter(boundary) + rest), |CRLF + value|, boundary, fuel)
      == match ReadParts(rest, boundary, fuel - 1)
         case None => None
         case Some(parts) => Some([part.(value := value)] + parts)
  {
    var d := Delimiter(boundary);
    var s := (CRLF + value) + (d + rest);
    hide Delimiter;
    hide ReadParts;
    assert s[|CRLF + value| + |d|..] == rest && ValueBefore(s, |CRLF + value|) == value;
  }

  /** Cut earlier, it loses part of the value. */
  lemma CutEarly(part: Part, value: string, k: nat, boundary: string, rest: string, fuel: nat)
    requires k < |CRLF + value| && fuel > 0 && value != ""
    ensures var r := ReadNext(part, (CRLF + value) + (Delimiter(boundary) + rest), k, boundary, fuel);
      r.None? || (r.value != [] && r.value[0].value != value)
  {
    hide Delimiter;
    hide ReadParts;
    assert |ValueBefore((CRLF + value) + (Delimiter(boundary) + rest), k)| < |value|;
  }

  lemma SplitsCons(arg: HttpReqArg, args: seq<HttpReqArg>, boundary: string)
    ensures NoValueSplits([arg] + args, boundary)
      <==> !Splits(arg.value, boundary) && NoValueSplits(args, boundary)
    ensures AllClean([arg] + args) <==> CleanHeaders(arg) && AllClean(args)
    ensures PartsOf([arg] + args) == [PartOf(arg)] + PartsOf(args)
    ensures PartsText([arg] + args, boundary)
      == CRLF + HeadText(arg, arg.value + (Delimiter(boundary) + PartsText(args, boundary)))
  {
    var all := [arg] + args;
    assert all[1..] == args;
    assert all[0] == arg && forall k :: 1 <= k < |all| ==> all[k] == args[k - 1];
    assert forall k :: 0 <= k < |args| ==> args[k] == all[k + 1];
  }

  ghost predicate RoundTrips(args: seq<HttpReqArg>, boundary: string, fuel: nat) {
    ReadParts(PartsText(args, boundary), boundary, fuel) == Some(PartsOf(args)) <==> NoValueSplits(args, boundary)
  }

  lemma NoPartsRoundTrip(boundary: string, fuel: nat)
    ensures RoundTrips([], boundary, fuel)
  {
    SkipAppended(DASHES, CRLF);
  }

  lemma OneMoreRoundTrip(args: seq<HttpReqArg>, boundary: string, fuel: nat)
    requires args != [] && AllClean(args) && CrFree(boundary) && fuel > 0 && RoundTrips(args[1..], boundary, fuel - 1)
    ensures RoundTrips(args, boundary, fuel)
  {
    var arg, tail := args[0], args[1..];
    PartRoundTrip(arg, tail, boundary, fuel);
    SplitsCons(arg, tail, boundary);
    assert [arg] + tail == args;
  }

  /** With clean headers the reader recovers the parts if and only if no value splits. */
  lemma {:induction false} CleanRoundTrip(args: seq<HttpReqArg>, boundary: string, fuel: nat)
    requires AllClean(args) && CrFree(boundary) && fuel >= |args|
    ensures RoundTrips(args, boundary, fuel)
  {
    hide RoundTrips;
    if args == [] {
      NoPartsRoundTrip(boundary, fuel);
    } else {
      CleanRoundTrip(args[1..], boundary, fuel - 1);
      OneMoreRoundTrip(args, boundary, fuel);
    }
  }

  lemma {:induction false} PartsOfAt(args: seq<HttpReqArg>)
    ensures |PartsOf(args)| == |args| && forall k :: 0 <= k < |args| ==> PartsOf(args)[k] == PartOf(args[k])
  {
    if args != [] {
      PartsOfAt(args[1..]);
    }
  }

  /**
   The reader recovers the parts if and only if the headers are clean and no value splits: whatever it
   reads out of a header is clean.
   */
  lemma PartsRoundTrip(args: seq<HttpReqArg>, boundary: string, fuel: nat)
    requires CrFree(boundary) && fuel >= |args|
    ensures ReadParts(PartsText(args, boundary), boundary, fuel) == Some(PartsOf(args))
      <==> AllClean(args) && NoValueSplits(args, boundary)
  {
    if AllClean(args) {
      CleanRoundTrip(args, boundary, fuel);
    } else {
      PartsOfAt(args);
      var k :| 0 <= k < |args| && !CleanHeaders(args[k]);
      assert !CleanPart(PartsOf(args)[k]);
    }
  }

  lemma PartRoundTrip(arg: HttpReqArg, tail: seq<HttpReqArg>, boundary: string, fuel: nat)
    requires CleanHeaders(arg) && CrFree(boundary) && fuel > 0
    requires ReadParts(PartsText(tail, boundary), boundary, fuel - 1) == Some(PartsOf(tail)) <==> NoValueSplits(tail, boundary)
    ensures var s := arg.value + (Delimiter(boundary) + PartsText(tail, boundary));
      ReadParts(CRLF + HeadText(arg, s), boundary, fuel) == Some([PartOf(arg)] + PartsOf(tail))
      <==> !Splits(arg.value, boundary) && NoValueSplits(tail, boundary)
  {
    var rest := PartsText(tail, boundary);
    FirstPart(arg, boundary, rest, fuel);
    var k := IndexOf((CRLF + arg.value) + (Delimiter(boundary) + rest), Delimiter(boundary)).value;
    assert k < |CRLF + arg.value| ==> |Delimiter(boundary)| <= |CRLF + arg.value|;
    if k == |CRLF + arg.value| {
      CutAtEnd(PartOf(arg).(value := ""), arg.value, boundary, rest, fuel);
    } else {
      CutEarly(PartOf(arg).(value := ""), arg.value, k, boundary, rest, fuel);
    }
    hide ReadNext;
    var read := ReadParts(rest, boundary, fuel - 1);
    if read.Some? {
      SameTail(PartOf(arg), read.value, PartsOf(tail));
    }
  }

  lemma Assoc(a: string, b: string, c: string)
    ensures a + b + c == a + (b + c)
  {
  }

  lemma {:induction false} ConcatCons(text: string, texts: seq<string>)
    ensures Concat([text] + texts) == text + Concat(texts)
  {
    if texts == [] {
      assert [text] + texts == [] + [text];
      ConcatSnoc([], text);
    } else {
      var most, last := texts[..|texts| - 1], texts[|texts| - 1];
      assert texts == most + [last];
      assert [text] + texts == ([text] + most) + [last];
      ConcatCons(text, most);
      ConcatSnoc([text] + most, last);
      Assoc(text, Concat(most), last);
    }
  }

  lemma ArgsTextCons(arg: HttpReqArg, args: seq<HttpReqArg>, boundary: string)
    ensures ArgsText([arg] + args, boundary) == ArgText(arg, boundary) + ArgsText(args, boundary)
  {
    hide ArgText;
    assert Texts([arg] + args, boundary) == [ArgText(arg, boundary)] + Texts(args, boundary);
    ConcatCons(ArgText(arg, boundary), Texts(args, boundary));
  }

  lemma BodyTextCons(arg: HttpReqArg, args: seq<HttpReqArg>, boundary: string)
    ensures BodyText([arg] + args, boundary) == ArgText(arg, boundary) + BodyText(args, boundary)
  {
    ArgsTextCons(arg, args, boundary);
    Assoc(ArgText(arg, boundary), ArgsText(args, boundary), DASHES + boundary + DASHES + CRLF);
  }

  lemma HeadAppend(arg: HttpReqArg, a: string, b: string)
    ensures HeadText(arg, a) + b == HeadText(arg, a + b)
  {
    PushIn(DISPOSITION, arg.name, QUOTE, FilenameText(arg), CRLF, TypeText(arg), a, b);
  }

  lemma PushIn(d: string, name: string, q: string, file: string, crlf: string, kind: string, a: string, b: string)
    ensures d + (name + (q + (file + (crlf + (kind + (crlf + a)))))) + b
      == d + (name + (q + (file + (crlf + (kind + (crlf + (a + b)))))))
  {
  }

  lemma Regroup(dashes: string, boundary: string, crlf: string, head: string, rest: string)
    ensures dashes + boundary + crlf + head + rest == (dashes + boundary) + (crlf + (head + rest))
  {
  }

  lemma DelimiterIn(value: string, crlf: string, dashed: string, rest: string)
    ensures value + crlf + (dashed + rest) == value + ((crlf + dashed) + rest)
  {
  }

  /** One argument, before a body in delimited form. */
  lemma ArgDelimited(arg: HttpReqArg, boundary: string, rest: string)
    ensures ArgText(arg, boundary) + ((DASHES + boundary) + rest)
      == (DASHES + boundary) + (CRLF + HeadText(arg, arg.value + (Delimiter(boundary) + rest)))
  {
    var after := (DASHES + boundary) + rest;
    HeadAppend(arg, arg.value + CRLF, after);
    DelimiterIn(arg.value, CRLF, DASHES + boundary, rest);
    Regroup(DASHES, boundary, CRLF, HeadText(arg, arg.value + CRLF), after);
  }

  /** The body is its dash-boundary followed by the parts with whole delimiters between them. */
  lemma {:induction false} BodyDelimited(args: seq<HttpReqArg>, boundary: string)
    ensures BodyText(args, boundary) == (DASHES + boundary) + PartsText(args, boundary)
  {
    if args == [] {
      Assoc(DASHES + boundary, DASHES, CRLF);
      assert "" + (DASHES + boundary + DASHES + CRLF) == DASHES + boundary + DASHES + CRLF;
    } else {
      var arg, tail := args[0], args[1..];
      assert args == [arg] + tail;
      BodyTextCons(arg, tail, boundary);
      BodyDelimited(tail, boundary);
      ArgDelimited(arg, boundary, PartsText(tail, boundary));
    }
  }

  lemma {:induction false} PartsLonger(args: seq<HttpReqArg>, boundary: string)
    ensures |PartsText(args, boundary)| > |args|
  {
    if args != [] {
      PartsLonger(args[1..], boundary);
    }
  }

  lemma CarriesPartsOf(parts: seq<Part>, args: seq<HttpReqArg>)
    ensures Carries(parts, args) <==> parts == PartsOf(args)
  {
    PartsOfAt(args);
  }

  /** The delimiter on the wire: the line break before it belongs to it. */
  lemma DelimiterText(boundary: string)
    ensures Delimiter(boundary) == "\r\n--" + boundary
  {
    assert CRLF + DASHES == "\r\n--";
  }

  /**
   A receiver recovers exactly the arguments that were put in if and only if no value contains the
   delimiter or begins with the dash-boundary, names and file names contain no quote, and they and the
   types no carriage return.
   */
  lemma MultipartRoundTrip(args: seq<HttpReqArg>, boundary: string)
    requires CrFree(boundary)
    ensures Received(MULTIPART + boundary, BodyText(args, boundary), args)
      <==> AllClean(args) && NoValueSplits(args, boundary)
  {
    assert MULTIPART == "multipart/form-data; boundary=";
    SkipAppended(MULTIPART, boundary);
    BodyDelimited(args, boundary);
    SkipAppended(DASHES + boundary, PartsText(args, boundary));
    PartsLonger(args, boundary);
    PartsRoundTrip(args, boundary, |PartsText(args, boundary)|);
    var read := ReadMultipart(BodyText(args, boundary), boundary);
    if read.Some? {
      CarriesPartsOf(read.value, args);
    }
  }
}
