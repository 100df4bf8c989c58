/** Markers: a short string recorded in a previous output (typically the
    digest of the input it was made from) that tells the pipeline whether a
    file needs to be processed again. A marker function either looks into
    the old output of a file (as text, as JSON, or one field of the JSON)
    or into an HTML file, where the tika client leaves a
    `<meta name="sha" sha="...">` tag. `findMarker` runs the configured
    marker function and records the files whose marker function failed. */
module Marker {
  import opened Wrappers
  import opened Paths
  import opened JsValues
  import opened FileNames

  /** The fields of the configuration that the marker functions read; the
      file reader may reject, like the promise it returns. */
  datatype MarkerConfig = MarkerConfig(
    inputDir: Path,
    outputDir: Path,
    newFileNameFn: Option<Path -> Path>,
    readFile: Path -> Outcome<string>)

  /** `MarkerFn`: the marker of an input file, undefined when there is none. */
  type MarkerFn = (MarkerConfig, Path) -> Outcome<JsValue>

  /** Where the old output of `file` is (the variant number is ignored). */
  function OldOutputPath(config: MarkerConfig, file: Path): Path {
    InputToOutputFileName(config.inputDir, config.outputDir, config.newFileNameFn, file)
  }

  /** `markerIsFromOldFile(find)(config, file)`: an unreadable old output
      gives undefined, otherwise `find` decides from its content. */
  function MarkerIsFromOldFile(find: (Path, string) -> Outcome<JsValue>, config: MarkerConfig, file: Path): Outcome<JsValue> {
    match config.readFile(OldOutputPath(config, file))
    case Throws(_) => Returns(Undef)
    case Returns(oldOutput) => find(file, oldOutput)
  }

  /** `markerIsFromJsonInOldFile(find)`: `find` is given the parsed old
      output; a parse error is not caught. */
  function MarkerIsFromJsonInOldFile(parse: JsonParse, find: JsValue -> Outcome<JsValue>, config: MarkerConfig, file: Path): Outcome<JsValue> {
    MarkerIsFromOldFile((name: Path, content: string) => (var json :- parse(content); find(json)), config, file)
  }

  /** `markerIsFieldInOldFile(field)`: `content?.[field]` of the parsed old output. */
  function MarkerIsFieldInOldFile(parse: JsonParse, field: string, config: MarkerConfig, file: Path): Outcome<JsValue> {
    MarkerIsFromJsonInOldFile(parse, (json: JsValue) => Returns(OptionalMember(json, field)), config, file)
  }

  /** `markerIsShaInOldFile` */
  function MarkerIsShaInOldFile(parse: JsonParse, config: MarkerConfig, file: Path): Outcome<JsValue> {
    MarkerIsFieldInOldFile(parse, "sha", config, file)
  }

  /** Every old-output marker is undefined when the old output cannot be
      read, whatever the finder or field. */
  lemma MissingOldOutputHasNoMarker(parse: JsonParse, config: MarkerConfig, file: Path)
    requires config.readFile(OldOutputPath(config, file)).Throws?
    ensures forall find: (Path, string) -> Outcome<JsValue> :: MarkerIsFromOldFile(find, config, file) == Returns(Undef)
    ensures forall find: JsValue -> Outcome<JsValue> :: MarkerIsFromJsonInOldFile(parse, find, config, file) == Returns(Undef)
    ensures forall field: string :: MarkerIsFieldInOldFile(parse, field, config, file) == Returns(Undef)
  {
  }

  /** The field marker of a readable old output: a parse failure is a
      failure of the marker; an object gives its field (undefined when the
      field is missing) and null gives undefined. */
  lemma FieldMarker(parse: JsonParse, field: string, config: MarkerConfig, file: Path)
    requires config.readFile(OldOutputPath(config, file)).Returns?
    ensures var json := parse(config.readFile(OldOutputPath(config, file)).value);
      var r := MarkerIsFieldInOldFile(parse, field, config, file);
      (json.Throws? ==> r.Throws?) &&
      (json.Returns? && json.value.Obj? && field in json.value.props ==> r == Returns(json.value.props[field])) &&
      (json.Returns? && json.value.Obj? && field !in json.value.props ==> r == Returns(Undef)) &&
      (json.Returns? && (json.value.Null? || json.value.Undef?) ==> r == Returns(Undef))
  {
  }

  /** An old output that parses to an object with a `sha` gives that sha. */
  lemma ShaMarkerReadsSha(parse: JsonParse, config: MarkerConfig, file: Path, content: string, sha: string)
    requires config.readFile(OldOutputPath(config, file)) == Returns(content)
    requires parse(content).Returns? && parse(content).value.Obj?
    requires "sha" in parse(content).value.props && parse(content).value.props["sha"] == Str(sha)
    ensures MarkerIsShaInOldFile(parse, config, file) == Returns(Str(sha))
  {
    FieldMarker(parse, "sha", config, file);
  }

  /** With input directory "input" and output directory "output", the old
      output of "input/file4.json" is "output/file4.json", and the old
      output of "file5.json" (outside the input directory) is "file5.json". */
  lemma OldOutputPathExamples(readFile: Path -> Outcome<string>)
    ensures OldOutputPath(MarkerConfig(["input"], ["output"], None, readFile), ["input", "file4.json"]) == ["output", "file4.json"]
    ensures OldOutputPath(MarkerConfig(["input"], ["output"], None, readFile), ["file5.json"]) == ["file5.json"]
  {
    assert CommonPrefixLength(["input"], ["input", "file4.json"]) == 1;
    assert ["input", "file4.json"][1..] == ["file4.json"];
    assert Relative(["input"], ["input", "file4.json"]) == ["file4.json"];
    assert CommonPrefixLength(["input"], ["file5.json"]) == 0;
    assert Relative(["input"], ["file5.json"]) == [".."] + ["file5.json"];
    assert Join(["output"], [".."] + ["file5.json"]) == Join([], ["file5.json"]);
  }

  // ---------------------------------------------------------------------
  // findMarker

  /** The part of `TranformFilesMetric` that `findMarker` updates. */
  class MarkerMetrics {
    var markerErrors: seq<Path>

    constructor ()
      ensures markerErrors == []
    {
      markerErrors := [];
    }
  }

  /** `findMarker(config, metrics, file)`: no marker function means no
      marker; a marker function that fails gives undefined and records the
      file in `metrics.markerErrors`. */
  method FindMarker(markerFn: Option<MarkerFn>, config: MarkerConfig, metrics: MarkerMetrics, file: Path) returns (marker: JsValue)
    modifies metrics
    ensures markerFn.None? ==> marker == Undef && metrics.markerErrors == old(metrics.markerErrors)
    ensures markerFn.Some? && markerFn.value(config, file).Returns? ==>
      marker == markerFn.value(config, file).value && metrics.markerErrors == old(metrics.markerErrors)
    ensures markerFn.Some? && markerFn.value(config, file).Throws? ==>
      marker == Undef && metrics.markerErrors == old(metrics.markerErrors) + [file]
  {
    if markerFn.None? {
      return Undef;
    }
    var result := markerFn.value(config, file);
    if result.Returns? {
      return result.value;
    }
    metrics.markerErrors := metrics.markerErrors + [file];
    return Undef;
  }

  // ---------------------------------------------------------------------
  // markerFromHtml: content.match(/<meta name="sha" sha="([^"]*)"/)

  /** The literal part of the regular expression before the group. */
  const MetaShaPrefix: string := "<meta name=\"sha\" sha=\""

  /** The literal prefix occurs in `s` at index `i`. */
  predicate PrefixAt(s: string, i: nat) {
    i + |MetaShaPrefix| <= |s| && s[i..i + |MetaShaPrefix|] == MetaShaPrefix
  }

  /** The first double quote at or after `from`. */
  function QuoteFrom(s: string, from: nat): (r: Option<nat>)
    ensures r.Some? ==> from <= r.value < |s| && s[r.value] == '"'
    ensures r.Some? ==> forall m | from <= m < r.value :: s[m] != '"'
    ensures r.None? ==> forall m | from <= m < |s| :: s[m] != '"'
    decreases |s| - from
  {
    if from >= |s| then None
    else if s[from] == '"' then Some(from)
    else QuoteFrom(s, from + 1)
  }

  /** The group the expression captures when it matches at index `i`: the
      greedy `[^"]*` runs to the first quote, which must exist. */
  function MetaShaAt(s: string, i: nat): Option<string> {
    if PrefixAt(s, i) then
      match QuoteFrom(s, i + |MetaShaPrefix|)
      case Some(j) => Some(s[i + |MetaShaPrefix|..j])
      case None => None
    else None
  }

  /** `String.prototype.match` from `from` on: the leftmost match. */
  function FirstMetaSha(s: string, from: nat): (r: Option<string>)
    ensures r.Some? ==> exists k | from <= k <= |s| :: MetaShaAt(s, k) == r && forall j | from <= j < k :: MetaShaAt(s, j).None?
    ensures r.None? ==> forall k | from <= k :: MetaShaAt(s, k).None?
    decreases |s| + 1 - from
  {
    if from > |s| then None
    else if MetaShaAt(s, from).Some? then MetaShaAt(s, from)
    else FirstMetaSha(s, from + 1)
  }

  /** `markerFromHtml(config, file)`: the sha of the first meta sha tag of
      the file (which may be empty), undefined without one; a file that
      cannot be read fails the marker. */
  function MarkerFromHtml(config: MarkerConfig, file: Path): Outcome<JsValue> {
    var content :- config.readFile(file);
    match FirstMetaSha(content, 0)
    case Some(sha) => Returns(Str(sha))
    case None => Returns(Undef)
  }

  /** The leftmost index where the expression matches decides the marker. */
  lemma LeftmostMatchWins(s: string, k: nat)
    requires MetaShaAt(s, k).Some?
    requires forall j | 0 <= j < k :: MetaShaAt(s, j).None?
    ensures FirstMetaSha(s, 0) == MetaShaAt(s, k)
  {
  }

  /** What the tika client makes of the `<head>` of a converted document:
      the tag is inserted right after it, on its own indented line. */
  function TikaShaHead(before: string, sha: string, after: string): string {
    before + "<head>\n    " + MetaShaPrefix + sha + "\"/>" + after
  }

  /** One mismatching character rules out a match of the prefix. */
  lemma MismatchIsNoPrefix(s: string, j: nat, m: nat)
    requires m < |MetaShaPrefix| && j + m < |s| && s[j + m] != MetaShaPrefix[m]
    ensures !PrefixAt(s, j)
  {
    if j + |MetaShaPrefix| <= |s| {
      assert s[j..j + |MetaShaPrefix|][m] == s[j + m];
    }
  }

  /** The prefix cannot start in `before` or in the head line unless it
      started in `before` alone. */
  lemma NoPrefixBeforeTag(before: string, rest: string, j: nat)
    requires forall i: nat :: !PrefixAt(before, i)
    requires |rest| >= 11 && rest[..11] == "<head>\n    "
    requires j < |before| + 11
    ensures !PrefixAt(before + rest, j)
  {
    var s, p := before + rest, MetaShaPrefix;
    assert |p| == 22 && p[0] == '<' && p[1] == 'm';
    assert forall i | 0 <= i < 11 :: s[|before| + i] == rest[..11][i];
    if j + |p| <= |before| {
      assert !PrefixAt(before, j);
      assert s[j..j + |p|] == before[j..j + |p|];
    } else if j < |before| {
      assert s[|before|] == '<';
      assert p[|before| - j] != '<';
      MismatchIsNoPrefix(s, j, |before| - j);
    } else if j == |before| {
      assert s[j + 1] == 'h';
      MismatchIsNoPrefix(s, j, 1);
    } else {
      assert s[j] != '<';
      MismatchIsNoPrefix(s, j, 0);
    }
  }

  /** A tag at the end of `pre` captures the digest up to the closing quote. */
  lemma MetaShaAtTag(pre: string, sha: string, tail: string)
    requires forall i | 0 <= i < |sha| :: sha[i] != '"'
    requires |tail| > 0 && tail[0] == '"'
    ensures MetaShaAt(pre + MetaShaPrefix + sha + tail, |pre|) == Some(sha)
  {
    var s := pre + MetaShaPrefix + sha + tail;
    var k, p := |pre|, MetaShaPrefix;
    assert s[k..k + |p|] == p;
    var q := k + |p| + |sha|;
    assert s[q] == tail[0];
    forall m | k + |p| <= m < q ensures s[m] != '"' {
      assert s[m] == sha[m - k - |p|];
    }
    assert QuoteFrom(s, k + |p|) == Some(q);
    assert s[k + |p|..q] == sha;
  }

  /** The marker read back from a document that the tika client tagged is
      the digest it wrote, provided the document had no such tag before its
      head and the digest holds no quote (a base64url digest has none). */
  lemma TikaShaRoundTrip(config: MarkerConfig, file: Path, before: string, sha: string, after: string)
    requires forall i: nat :: !PrefixAt(before, i)
    requires forall i | 0 <= i < |sha| :: sha[i] != '"'
    requires config.readFile(file) == Returns(TikaShaHead(before, sha, after))
    ensures MarkerFromHtml(config, file) == Returns(Str(sha))
  {
    var head := "<head>\n    ";
    var rest := head + MetaShaPrefix + sha + "\"/>" + after;
    var s := TikaShaHead(before, sha, after);
    assert s == before + rest;
    assert s == (before + head) + MetaShaPrefix + sha + ("\"/>" + after);
    assert |head| == 11 && rest[..11] == head;
    forall j: nat | j < |before| + 11 ensures MetaShaAt(s, j).None? {
      NoPrefixBeforeTag(before, rest, j);
    }
    MetaShaAtTag(before + head, sha, "\"/>" + after);
    LeftmostMatchWins(s, |before| + 11);
  }
}
