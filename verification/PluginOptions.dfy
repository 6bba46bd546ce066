/** The plugin option string of internal/plugin/sip003.go: its printer and its parser.

The printer visits the map in an arbitrary order, which the specification takes as a parameter.
*/
module PluginOptions {

  type Options = map<string, string>

  // ---------------------------------------------------------------- strings

  /** unicode.IsSpace */
  predicate IsSpace(ch: char) {
    '\t' <= ch <= '\r' || ch == ' ' || ch == '\U{0085}' || ch == '\U{00A0}' || ch == '\U{1680}'
    || '\U{2000}' <= ch <= '\U{200A}' || ch == '\U{2028}' || ch == '\U{2029}' || ch == '\U{202F}' || ch == '\U{205F}'
    || ch == '\U{3000}'
  }

  function TrimLeft(s: string): string {
    if s != "" && IsSpace(s[0]) then TrimLeft(s[1..]) else s
  }

  function TrimRight(s: string): string {
    if s != "" && IsSpace(s[|s| - 1]) then TrimRight(s[..|s| - 1]) else s
  }

  function TrimSpace(s: string): string {
    TrimRight(TrimLeft(s))
  }

  /** strings.Split with a one-character separator. */
  function Split(s: string, sep: char): (parts: seq<string>)
    ensures |parts| > 0
  {
    if s == "" then [""]
    else
      var rest := Split(s[1..], sep);
      if s[0] == sep then [""] + rest else [[s[0]] + rest[0]] + rest[1..]
  }

  function Join(parts: seq<string>, sep: char): string {
    if parts == [] then ""
    else if |parts| == 1 then parts[0]
    else parts[0] + [sep] + Join(parts[1..], sep)
  }

  function IndexOf(s: string, ch: char): (i: nat)
    ensures i <= |s| && ch !in s[..i]
    ensures i < |s| ==> s[i] == ch
  {
    if s == "" || s[0] == ch then 0 else 1 + IndexOf(s[1..], ch)
  }

  // ---------------------------------------------------------------- the two functions

  /** One pair: cut at the first equals sign, or a bare key that means "true". */
  function ParsePair(pair: string): (string, string) {
    var i := IndexOf(pair, '=');
    if i < |pair| then (TrimSpace(pair[..i]), TrimSpace(pair[i + 1..])) else (TrimSpace(pair), "true")
  }

  function ParsePairs(pairs: seq<string>): Options {
    if pairs == [] then map[]
    else var (key, value) := ParsePair(pairs[|pairs| - 1]); ParsePairs(pairs[..|pairs| - 1])[key := value]
  }

  function Parse(opts: string): Options {
    if opts == "" then map[] else ParsePairs(Split(opts, ';'))
  }

  function FormatPair(key: string, value: string): string {
    if value == "true" then key else key + "=" + value
  }

  function FormatPairs(opts: Options, order: seq<string>): (pairs: seq<string>)
    requires forall k | 0 <= k < |order| :: order[k] in opts
    ensures |pairs| == |order| && forall k | 0 <= k < |order| :: pairs[k] == FormatPair(order[k], opts[order[k]])
  {
    if order == [] then []
    else FormatPairs(opts, order[..|order| - 1]) + [FormatPair(order[|order| - 1], opts[order[|order| - 1]])]
  }

  /** `order` lists every key once. */
  ghost predicate Enumerates(order: seq<string>, opts: Options) {
    && (forall k | 0 <= k < |order| :: order[k] in opts)
    && (forall key | key in opts :: key in order)
    && (forall j, k | 0 <= j < k < |order| :: order[j] != order[k])
  }

  ghost function Format(opts: Options, order: seq<string>): string
    requires Enumerates(order, opts)
  {
    if |opts| == 0 then "" else Join(FormatPairs(opts, order), ';')
  }

  method ParsePluginOptions(opts: string) returns (result: Options)
    ensures result == Parse(opts)
  {
    hide TrimSpace, Split;
    result := map[];
    if opts == "" { return; }
    var pairs := Split(opts, ';');
    for i := 0 to |pairs|
      invariant result == ParsePairs(pairs[..i])
    {
      assert pairs[..i + 1][..i] == pairs[..i];
      var pair := pairs[i];
      var cut := IndexOf(pair, '=');
      if cut < |pair| {
        result := result[TrimSpace(pair[..cut]) := TrimSpace(pair[cut + 1..])];
      } else {
        result := result[TrimSpace(pair) := "true"];
      }
    }
    assert pairs[..|pairs|] == pairs;
  }

  method FormatPluginOptions(opts: Options) returns (s: string, ghost order: seq<string>)
    ensures Enumerates(order, opts) && s == Format(opts, order)
  {
    hide Join;
    order := [];
    if |opts| == 0 {
      assert opts == map[];
      return "", [];
    }
    var pairs: seq<string> := [];
    var todo := opts.Keys;
    while todo != {}
      invariant todo <= opts.Keys
      invariant forall k | 0 <= k < |order| :: order[k] in opts && order[k] !in todo
      invariant forall key | key in opts :: key in todo || key in order
      invariant forall j, k | 0 <= j < k < |order| :: order[j] != order[k]
      invariant pairs == FormatPairs(opts, order)
      decreases |todo|
    {
      var key :| key in todo;
      todo := todo - {key};
      if opts[key] == "true" {
        pairs := pairs + [key];
      } else {
        pairs := pairs + [key + "=" + opts[key]];
      }
      ghost var before := order;
      order := order + [key];
      assert order[..|before|] == before;
    }
    s := Join(pairs, ';');
  }

  // ---------------------------------------------------------------- what survives

  ghost predicate CleanKey(key: string) {
    ';' !in key && '=' !in key && TrimSpace(key) == key
  }

  ghost predicate CleanValue(value: string) {
    ';' !in value && TrimSpace(value) == value
  }

  ghost predicate Clean(opts: Options) {
    forall key | key in opts :: CleanKey(key) && CleanValue(opts[key])
  }

  predicate TrimmedLeft(s: string) { s == "" || !IsSpace(s[0]) }

  predicate TrimmedRight(s: string) { s == "" || !IsSpace(s[|s| - 1]) }

  lemma {:induction false} TrimLeftFacts(s: string)
    ensures TrimmedLeft(TrimLeft(s)) && (TrimmedLeft(s) ==> TrimLeft(s) == s)
    ensures forall ch | ch in TrimLeft(s) :: ch in s
  {
    if s != "" && IsSpace(s[0]) { TrimLeftFacts(s[1..]); }
  }

  lemma {:induction false} TrimRightFacts(s: string)
    ensures TrimmedRight(TrimRight(s)) && (TrimmedRight(s) ==> TrimRight(s) == s)
    ensures TrimmedLeft(s) ==> TrimmedLeft(TrimRight(s))
    ensures forall ch | ch in TrimRight(s) :: ch in s
  {
    if s != "" && IsSpace(s[|s| - 1]) { TrimRightFacts(s[..|s| - 1]); }
  }

  predicate AllSpace(s: string) { forall k | 0 <= k < |s| :: IsSpace(s[k]) }

  lemma {:induction false} TrimLeftTakes(s: string) returns (left: string)
    ensures s == left + TrimLeft(s) && AllSpace(left)
  {
    if s != "" && IsSpace(s[0]) {
      left := TrimLeftTakes(s[1..]);
      left := [s[0]] + left;
    } else {
      left := "";
    }
  }

  lemma {:induction false} TrimRightTakes(s: string) returns (right: string)
    ensures s == TrimRight(s) + right && AllSpace(right)
  {
    if s != "" && IsSpace(s[|s| - 1]) {
      right := TrimRightTakes(s[..|s| - 1]);
      right := right + [s[|s| - 1]];
    } else {
      right := "";
    }
  }

  /** Trimming takes white space off both ends, all of it, and nothing else. */
  lemma TrimTakes(s: string)
    ensures exists left, right :: s == left + TrimSpace(s) + right && AllSpace(left) && AllSpace(right)
    ensures TrimmedLeft(TrimSpace(s)) && TrimmedRight(TrimSpace(s))
  {
    var left := TrimLeftTakes(s);
    var right := TrimRightTakes(TrimLeft(s));
    TrimLeftFacts(s);
    TrimRightFacts(TrimLeft(s));
    hide TrimLeft, TrimRight, IsSpace, AllSpace;
    assert s == left + TrimSpace(s) + right;
  }

  /** Blank, tab, line ends and the Unicode spaces are white space; letters, digits and separators are not. */
  lemma SpacesAre()
    ensures AllSpace(" \t\n\r") && IsSpace('\U{000B}') && IsSpace('\U{000C}') && IsSpace('\U{0085}')
            && IsSpace('\U{00A0}') && IsSpace('\U{3000}')
    ensures forall ch: char | '!' <= ch <= '~' :: !IsSpace(ch)
  {}

  /** Trimming twice is trimming once, and takes nothing but characters of the string. */
  lemma TrimFacts(s: string)
    ensures TrimSpace(TrimSpace(s)) == TrimSpace(s)
    ensures forall ch | ch in TrimSpace(s) :: ch in s
  {
    TrimLeftFacts(s);
    TrimRightFacts(TrimLeft(s));
    TrimLeftFacts(TrimSpace(s));
    TrimRightFacts(TrimSpace(s));
    hide TrimLeft, TrimRight, IsSpace;
  }

  lemma {:induction false} SplitParts(s: string, sep: char)
    ensures forall k | 0 <= k < |Split(s, sep)| :: sep !in Split(s, sep)[k]
  {
    if s != "" { SplitParts(s[1..], sep); }
  }

  lemma {:induction false} SplitPrefix(p: string, s: string, sep: char)
    requires sep !in p
    ensures Split(p + s, sep) == [p + Split(s, sep)[0]] + Split(s, sep)[1..]
  {
    if p == "" {
      var parts := Split(s, sep);
      assert p + s == s && p + parts[0] == parts[0] && [parts[0]] + parts[1..] == parts;
    } else {
      SplitPrefix(p[1..], s, sep);
      assert (p + s)[1..] == p[1..] + s;
      assert [p[0]] + (p[1..] + Split(s, sep)[0]) == p + Split(s, sep)[0];
    }
  }

  lemma {:induction false} SplitInvertsJoin(parts: seq<string>, sep: char)
    requires parts != [] && forall k | 0 <= k < |parts| :: sep !in parts[k]
    ensures Split(Join(parts, sep), sep) == parts
  {
    if |parts| == 1 {
      SplitPrefix(parts[0], "", sep);
      assert parts[0] + "" == parts[0];
      assert Split("", sep) == [""];
    } else {
      var rest := Join(parts[1..], sep);
      SplitInvertsJoin(parts[1..], sep);
      SplitPrefix(parts[0], [sep] + rest, sep);
      assert ([sep] + rest)[1..] == rest;
      assert parts[0] + ([sep] + rest) == parts[0] + [sep] + rest;
      assert Split([sep] + rest, sep) == [""] + parts[1..];
      assert parts[0] + "" == parts[0];
    }
  }

  lemma {:induction false} FirstCut(key: string, rest: string)
    requires '=' !in key
    ensures IndexOf(key + "=" + rest, '=') == |key|
    ensures IndexOf(key, '=') == |key|
  {
    if key != "" {
      FirstCut(key[1..], rest);
      assert (key + "=" + rest)[1..] == key[1..] + "=" + rest;
    }
  }

  lemma PairRoundTrip(key: string, value: string)
    requires CleanKey(key) && CleanValue(value)
    ensures ParsePair(FormatPair(key, value)) == (key, value)
    ensures ';' !in FormatPair(key, value)
  {
    FirstCut(key, value);
    hide TrimSpace, IndexOf;
    var s := key + "=" + value;
    assert s[..|key|] == key && s[|key| + 1..] == value;
  }

  lemma {:induction false} PairsRoundTrip(opts: Options, order: seq<string>)
    requires Clean(opts)
    requires forall k | 0 <= k < |order| :: order[k] in opts
    ensures ParsePairs(FormatPairs(opts, order)) == map key | key in order :: opts[key]
  {
    hide CleanKey, CleanValue, ParsePair, FormatPair;
    if order != [] {
      var n := |order| - 1;
      PairsRoundTrip(opts, order[..n]);
      PairRoundTrip(order[n], opts[order[n]]);
      assert order == order[..n] + [order[n]];
      assert FormatPairs(opts, order)[..n] == FormatPairs(opts, order[..n]);
    }
  }

  lemma PairIsClean(pair: string)
    requires ';' !in pair
    ensures var (key, value) := ParsePair(pair); CleanKey(key) && CleanValue(value)
  {
    var i := IndexOf(pair, '=');
    TrimFacts(pair[..i]);
    if i < |pair| {
      TrimFacts(pair[i + 1..]);
    } else {
      assert pair[..i] == pair;
    }
    TrueIsTrimmed();
    hide TrimSpace;
  }

  lemma TrueIsTrimmed()
    ensures TrimSpace("true") == "true"
  {
    TrimLeftFacts("true");
    TrimRightFacts("true");
    assert !IsSpace('t') && !IsSpace('e');
    hide TrimLeft, TrimRight;
  }

  /** Whatever is parsed is clean. */
  lemma {:induction false} ParsedIsClean(pairs: seq<string>)
    requires forall k | 0 <= k < |pairs| :: ';' !in pairs[k]
    ensures Clean(ParsePairs(pairs))
  {
    hide CleanKey, CleanValue, ParsePair;
    if pairs != [] {
      var n := |pairs| - 1;
      ParsedIsClean(pairs[..n]);
      PairIsClean(pairs[n]);
    }
  }

  /** The parsed map, pair by pair: its keys are those of the pairs, and the last pair with a key decides. */
  lemma {:induction false} LastPairDecides(pairs: seq<string>, key: string)
    ensures key in ParsePairs(pairs) <==> exists k :: 0 <= k < |pairs| && ParsePair(pairs[k]).0 == key
    ensures forall k | 0 <= k < |pairs| && ParsePair(pairs[k]).0 == key
                       && (forall j | k < j < |pairs| :: ParsePair(pairs[j]).0 != key) ::
              ParsePairs(pairs)[key] == ParsePair(pairs[k]).1
  {
    hide ParsePair;
    if pairs != [] {
      var n := |pairs| - 1;
      LastPairDecides(pairs[..n], key);
      assert forall k | 0 <= k < n :: pairs[..n][k] == pairs[k];
      assert key in ParsePairs(pairs) <==> key in ParsePairs(pairs[..n]) || key == ParsePair(pairs[n]).0;
    }
  }

  /** One pair: what is before the first equals sign and what is behind it, trimmed, or the whole and "true". */
  lemma PairIsCut(before: string, after: string)
    requires '=' !in before
    ensures ParsePair(before + "=" + after) == (TrimSpace(before), TrimSpace(after))
    ensures ParsePair(before) == (TrimSpace(before), "true")
  {
    FirstCut(before, after);
    hide TrimSpace, IndexOf;
    var s := before + "=" + after;
    assert s[..|before|] == before && s[|before| + 1..] == after;
  }

  lemma {:induction false} JoinIsEmpty(parts: seq<string>, sep: char)
    ensures Join(parts, sep) == "" <==> parts == [] || parts == [""]
  {}

  /** In every print order the parser restores the printed map exactly when its keys and values are trimmed,
      no key holds a separator, no value a semicolon, and it is not the one map that prints as the empty
      string without being empty. */
  lemma FormatRoundTrip(opts: Options, order: seq<string>)
    requires Enumerates(order, opts)
    ensures Parse(Format(opts, order)) == opts <==> Clean(opts) && opts != map["" := "true"]
  {
    hide Parse, Format, Clean, Enumerates;
    if Parse(Format(opts, order)) == opts { OnlyCleanSurvives(opts, order); }
    if Clean(opts) && opts != map["" := "true"] { CleanSurvives(opts, order); }
  }

  lemma OnlyCleanSurvives(opts: Options, order: seq<string>)
    requires Enumerates(order, opts) && Parse(Format(opts, order)) == opts
    ensures Clean(opts) && opts != map["" := "true"]
  {
    var s := Format(opts, order);
    if opts == map["" := "true"] { OnlyEmptyKey(opts, order); }
    hide Format, Enumerates, ParsePairs, Split;
    SplitParts(s, ';');
    if s != "" { ParsedIsClean(Split(s, ';')); }
  }

  lemma CleanSurvives(opts: Options, order: seq<string>)
    requires Enumerates(order, opts) && Clean(opts) && opts != map["" := "true"]
    ensures Parse(Format(opts, order)) == opts
  {
    if |opts| != 0 {
      var pairs := FormatPairs(opts, order);
      assert order != [] by { var key :| key in opts; assert key in order; }
      NoSemicolons(opts, order);
      WholeMap(opts, order);
      hide Clean, Enumerates, ParsePairs, Split, Join, FormatPairs;
      SplitInvertsJoin(pairs, ';');
      JoinIsEmpty(pairs, ';');
      if pairs == [""] { EmptyPrint(opts, order); }
      PairsRoundTrip(opts, order);
    }
  }

  lemma NoSemicolons(opts: Options, order: seq<string>)
    requires Enumerates(order, opts) && Clean(opts)
    ensures forall k | 0 <= k < |order| :: ';' !in FormatPairs(opts, order)[k]
  {
    hide CleanKey, CleanValue, FormatPair;
    forall k | 0 <= k < |order| ensures ';' !in FormatPairs(opts, order)[k] { PairRoundTrip(order[k], opts[order[k]]); }
  }

  lemma WholeMap(opts: Options, order: seq<string>)
    requires Enumerates(order, opts)
    ensures opts == map key | key in order :: opts[key]
  {}

  lemma FirstTwoDiffer(opts: Options, order: seq<string>)
    requires Enumerates(order, opts) && |order| > 1
    ensures order[0] != order[1]
  {}

  lemma OnlyEmptyKey(opts: Options, order: seq<string>)
    requires Enumerates(order, opts) && opts == map["" := "true"]
    ensures Format(opts, order) == ""
  {
    assert "" in opts && "" in order;
    assert forall k | 0 <= k < |order| :: order[k] == "";
    if |order| > 1 {
      FirstTwoDiffer(opts, order);
      assert false;
    }
    assert order == [""];
  }

  lemma EmptyPrint(opts: Options, order: seq<string>)
    requires Enumerates(order, opts) && FormatPairs(opts, order) == [""]
    ensures opts == map["" := "true"]
  {
    assert FormatPair(order[0], opts[order[0]]) == "";
    assert order == [""] && opts[""] == "true";
    assert forall key | key in opts :: key == "";
  }
}
