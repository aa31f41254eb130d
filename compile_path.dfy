/**
 * `compile_path`: turns a path template such as `/users/{id:int}` into an
 * anchored matcher, a reconstruction format and a parameter-name to
 * convertor map. The matcher is kept as its list of segments (literal text
 * and named parameters) between the `^` and `$` anchors, not as regex text.
 *
 * The `PARAM_REGEX.finditer` scan is modelled by `MatchAt`, `FindFrom` and
 * `Placeholders`; the compiler itself is the method `CompilePath`, whose loop
 * follows the Python loop statement by statement.
 */
module PathCompiler {
  import opened Base
  import opened Text
  import opened Convertors

  // ---------------------------------------------------------------------
  // The placeholder grammar `{([a-zA-Z_][a-zA-Z0-9_]*)(:[a-zA-Z][a-zA-Z0-9_]*)?}`

  predicate IsNameStart(c: char) { 'a' <= c <= 'z' || 'A' <= c <= 'Z' || c == '_' }

  predicate IsNameChar(c: char) { IsNameStart(c) || IsDigit(c) }

  predicate IsTypeStart(c: char) { 'a' <= c <= 'z' || 'A' <= c <= 'Z' }

  predicate IsParamName(s: string)
  {
    |s| > 0 && IsNameStart(s[0]) && forall i :: 0 < i < |s| ==> IsNameChar(s[i])
  }

  predicate IsTypeName(s: string)
  {
    |s| > 0 && IsTypeStart(s[0]) && forall i :: 0 < i < |s| ==> IsNameChar(s[i])
  }

  /** One match of the placeholder regex: its span, its name and its convertor type. */
  datatype Placeholder = Placeholder(start: nat, end: nat, name: string, typeName: string)

  /** The end of the longest run of `[a-zA-Z0-9_]` starting at `i`. */
  function RunEnd(s: string, i: nat): (j: nat)
    requires i <= |s|
    ensures i <= j <= |s|
    ensures forall k :: i <= k < j ==> IsNameChar(s[k])
    ensures j == |s| || !IsNameChar(s[j])
    decreases |s| - i
  {
    if i < |s| && IsNameChar(s[i]) then RunEnd(s, i + 1) else i
  }

  lemma {:induction false} RunEndAt(s: string, i: nat, j: nat)
    requires i <= j <= |s|
    requires forall k :: i <= k < j ==> IsNameChar(s[k])
    requires j == |s| || !IsNameChar(s[j])
    ensures RunEnd(s, i) == j
    decreases j - i
  {
    if i < j {
      RunEndAt(s, i + 1, j);
    }
  }

  /**
   * The regex match that starts exactly at `p`, if any. The groups are greedy
   * and what may follow each group is not a name character, so backtracking
   * never finds another match: this is the only one.
   */
  function MatchAt(s: string, p: nat): (r: Option<Placeholder>)
    requires p <= |s|
    ensures r.Some? ==> r.value.start == p < r.value.end <= |s|
  {
    if p + 1 < |s| && s[p] == '{' && IsNameStart(s[p + 1]) then
      var ne := RunEnd(s, p + 2);
      if ne < |s| && s[ne] == '}' then
        Some(Placeholder(p, ne + 1, s[p + 1..ne], "str"))
      else if ne + 1 < |s| && s[ne] == ':' && IsTypeStart(s[ne + 1]) then
        var te := RunEnd(s, ne + 2);
        if te < |s| && s[te] == '}' then
          Some(Placeholder(p, te + 1, s[p + 1..ne], s[ne + 1..te]))
        else None
      else None
    else None
  }

  /** Every match is `{name}`, with type `str`, or `{name:type}`. */
  lemma MatchAtSound(s: string, p: nat)
    requires p <= |s| && MatchAt(s, p).Some?
    ensures var ph := MatchAt(s, p).value;
      && IsParamName(ph.name)
      && (|| (ph.typeName == "str" && s[p..ph.end] == "{" + ph.name + "}")
          || (IsTypeName(ph.typeName) && s[p..ph.end] == "{" + ph.name + ":" + ph.typeName + "}"))
  {
    var ne := RunEnd(s, p + 2);
    if ne < |s| && s[ne] == '}' {
      BareMatchSound(s, p);
    } else {
      TypedMatchSound(s, p);
    }
  }

  lemma BareMatchSound(s: string, p: nat)
    requires p <= |s| && MatchAt(s, p).Some?
    requires var ne := RunEnd(s, p + 2); ne < |s| && s[ne] == '}'
    ensures var ph := MatchAt(s, p).value;
      && IsParamName(ph.name) && ph.typeName == "str" && s[p..ph.end] == "{" + ph.name + "}"
  {
    var ne := RunEnd(s, p + 2);
    assert MatchAt(s, p).value == Placeholder(p, ne + 1, s[p + 1..ne], "str");
    SliceIsName(s, p + 1, ne);
    BracedSlice(s, p, ne);
  }

  lemma TypedMatchSound(s: string, p: nat)
    requires p <= |s| && MatchAt(s, p).Some?
    requires var ne := RunEnd(s, p + 2); !(ne < |s| && s[ne] == '}')
    ensures var ph := MatchAt(s, p).value;
      && IsParamName(ph.name) && IsTypeName(ph.typeName)
      && s[p..ph.end] == "{" + ph.name + ":" + ph.typeName + "}"
  {
    var ne := RunEnd(s, p + 2);
    var te := RunEnd(s, ne + 2);
    assert MatchAt(s, p).value == Placeholder(p, te + 1, s[p + 1..ne], s[ne + 1..te]);
    SliceIsName(s, p + 1, ne);
    SliceIsName(s, ne + 1, te);
    TypedSlice(s, p, ne, te);
  }

  lemma BracedSlice(s: string, a: nat, b: nat)
    requires a < b < |s| && s[a] == '{' && s[b] == '}'
    ensures s[a..b + 1] == "{" + s[a + 1..b] + "}"
  {
    assert s[a..b + 1] == [s[a]] + s[a + 1..b] + [s[b]];
  }

  lemma TypedSlice(s: string, a: nat, m: nat, b: nat)
    requires a < m < b < |s| && s[a] == '{' && s[m] == ':' && s[b] == '}'
    ensures s[a..b + 1] == "{" + s[a + 1..m] + ":" + s[m + 1..b] + "}"
  {
    assert s[a..b + 1] == [s[a]] + s[a + 1..m] + [s[m]] + s[m + 1..b] + [s[b]];
  }

  lemma SliceIsName(s: string, a: nat, b: nat)
    requires a < b <= |s| && forall k :: a < k < b ==> IsNameChar(s[k])
    ensures IsNameStart(s[a]) ==> IsParamName(s[a..b])
    ensures IsTypeStart(s[a]) ==> IsTypeName(s[a..b])
  {
    assert forall k :: 0 < k < b - a ==> s[a..b][k] == s[a + k];
  }

  /** `{name}` is recognised as a placeholder whose type defaults to `str`. */
  lemma BarePlaceholderMatches(s: string, p: nat, name: string)
    requires IsParamName(name) && p + |name| + 2 <= |s|
    requires s[p..p + |name| + 2] == "{" + name + "}"
    ensures MatchAt(s, p) == Some(Placeholder(p, p + |name| + 2, name, "str"))
  {
    var text := "{" + name + "}";
    assert text[..|name| + 1] == "{" + name;
    NameRun(s, p, name, text);
    assert s[p + 1 + |name|] == text[|name| + 1] == '}';
  }

  /** `{name:type}` is recognised as a placeholder with that type. */
  lemma TypedPlaceholderMatches(s: string, p: nat, name: string, typeName: string)
    requires IsParamName(name) && IsTypeName(typeName)
    requires p + |name| + |typeName| + 3 <= |s|
    requires s[p..p + |name| + |typeName| + 3] == "{" + name + ":" + typeName + "}"
    ensures MatchAt(s, p) == Some(Placeholder(p, p + |name| + |typeName| + 3, name, typeName))
  {
    var ne := p + 1 + |name|;
    var te := ne + 1 + |typeName|;
    TypedRuns(s, p, name, typeName);
    MatchAtTyped(s, p, ne, te);
  }

  /** The character facts the typed branch of `MatchAt` reads off `{name:type}` at `p`. */
  lemma TypedRuns(s: string, p: nat, name: string, typeName: string)
    requires IsParamName(name) && IsTypeName(typeName)
    requires p + |name| + |typeName| + 3 <= |s|
    requires s[p..p + |name| + |typeName| + 3] == "{" + name + ":" + typeName + "}"
    ensures var ne := p + 1 + |name|; var te := ne + 1 + |typeName|;
      && s[p] == '{' && IsNameStart(s[p + 1]) && RunEnd(s, p + 2) == ne
      && s[ne] == ':' && IsTypeStart(s[ne + 1]) && RunEnd(s, ne + 2) == te && s[te] == '}'
      && s[p + 1..ne] == name && s[ne + 1..te] == typeName
  {
    var ne := p + 1 + |name|;
    var text := "{" + name + ":" + typeName + "}";
    TypedText(name, typeName);
    assert text[..|name| + 1] == "{" + name;
    NameRun(s, p, name, text);
    TypeRun(s, p, text, ne, typeName);
  }

  /** The typed branch of `MatchAt`, once both runs are known. */
  lemma MatchAtTyped(s: string, p: nat, ne: nat, te: nat)
    requires p + 1 < ne < te < |s|
    requires s[p] == '{' && IsNameStart(s[p + 1]) && RunEnd(s, p + 2) == ne
    requires s[ne] == ':' && IsTypeStart(s[ne + 1]) && RunEnd(s, ne + 2) == te && s[te] == '}'
    ensures MatchAt(s, p) == Some(Placeholder(p, te + 1, s[p + 1..ne], s[ne + 1..te]))
  {
  }

  /** Where the parts of `{name:type}` sit in its text. */
  lemma TypedText(name: string, typeName: string)
    ensures var text := "{" + name + ":" + typeName + "}";
      && |text| == |name| + |typeName| + 3
      && text[..|name| + 1] == "{" + name
      && text[|name| + 1] == ':'
      && text[|name| + 2..|text| - 1] == typeName
      && text[|text| - 1] == '}'
  {
    var text := "{" + name + ":" + typeName + "}";
    assert text == ("{" + name) + ":" + typeName + "}";
  }

  /** The type part of a placeholder text `text` at `p` whose colon is at `ne`. */
  lemma TypeRun(s: string, p: nat, text: string, ne: nat, typeName: string)
    requires IsTypeName(typeName) && p < ne && p + |text| <= |s|
    requires s[p..p + |text|] == text && |text| == ne - p + |typeName| + 2
    requires text[ne - p] == ':' && text[ne - p + 1..|text| - 1] == typeName && text[|text| - 1] == '}'
    ensures var te := ne + 1 + |typeName|;
      && s[ne] == ':' && IsTypeStart(s[ne + 1])
      && RunEnd(s, ne + 2) == te && s[ne + 1..te] == typeName && s[te] == '}'
  {
    var te := ne + 1 + |typeName|;
    assert s[ne] == text[ne - p];
    assert s[ne + 1] == text[ne - p + 1] == typeName[0];
    assert s[te] == text[te - p];
    forall k | ne + 2 <= k < te ensures IsNameChar(s[k]) {
      assert s[k] == text[k - p] == typeName[k - ne - 1];
    }
    RunEndAt(s, ne + 2, te);
    assert s[ne + 1..te] == typeName by {
      forall k | 0 <= k < |typeName| ensures s[ne + 1 + k] == typeName[k] {
        assert s[ne + 1 + k] == text[ne + 1 + k - p];
      }
    }
  }

  /** The name part of a placeholder text starting at `p`. */
  lemma NameRun(s: string, p: nat, name: string, text: string)
    requires IsParamName(name) && |text| > |name| + 1 && p + |text| <= |s|
    requires s[p..p + |text|] == text && text[..|name| + 1] == "{" + name
    requires !IsNameChar(text[|name| + 1])
    ensures s[p] == '{' && IsNameStart(s[p + 1])
    ensures RunEnd(s, p + 2) == p + 1 + |name| && s[p + 1..p + 1 + |name|] == name
  {
    var ne := p + 1 + |name|;
    assert s[p] == text[0] == '{';
    assert s[p + 1] == text[1] == name[0];
    assert s[ne] == text[ne - p];
    forall k | p + 2 <= k < ne ensures IsNameChar(s[k]) {
      assert s[k] == text[k - p] == name[k - p - 1];
    }
    RunEndAt(s, p + 2, ne);
    assert s[p + 1..ne] == name by {
      forall k | 0 <= k < |name| ensures s[p + 1 + k] == name[k] { assert s[p + 1 + k] == text[k + 1]; }
    }
  }

  /** The leftmost match at or after `i`: one step of `finditer`. */
  function FindFrom(s: string, i: nat): (r: Option<Placeholder>)
    requires i <= |s|
    ensures r.Some? ==> i <= r.value.start < r.value.end <= |s| && MatchAt(s, r.value.start) == r
    ensures r.Some? ==> forall q :: i <= q < r.value.start ==> MatchAt(s, q).None?
    ensures r.None? ==> forall q :: i <= q <= |s| ==> MatchAt(s, q).None?
    decreases |s| - i
  {
    if i == |s| then None
    else
      match MatchAt(s, i)
      case Some(ph) => Some(ph)
      case None => FindFrom(s, i + 1)
  }

  /** The matches lie in order, without overlap, from position `i` on. */
  predicate WellPlaced(s: string, phs: seq<Placeholder>, i: nat)
    decreases |phs|
  {
    && i <= |s|
    && (phs != [] ==>
          && i <= phs[0].start < phs[0].end <= |s|
          && MatchAt(s, phs[0].start) == Some(phs[0])
          && WellPlaced(s, phs[1..], phs[0].end))
  }

  /** `PARAM_REGEX.finditer(s)` resumed at `i`: every placeholder, left to right. */
  function Placeholders(s: string, i: nat): (phs: seq<Placeholder>)
    requires i <= |s|
    ensures WellPlaced(s, phs, i)
    decreases |s| - i
  {
    match FindFrom(s, i)
    case None => []
    case Some(ph) => [ph] + Placeholders(s, ph.end)
  }

  // ---------------------------------------------------------------------
  // What the compiler builds from the placeholders

  /** One piece of the anchored matcher: escaped literal text or a named group. */
  datatype Segment = Literal(text: string) | Param(name: string, convertor: ConvertorKind)

  datatype CompiledPath = CompiledPath(matcher: seq<Segment>, format: string, convertors: map<string, ConvertorKind>)

  datatype CompileError =
    | UnknownConvertor(typeName: string)
    | DuplicatedParams(names: seq<string>, path: string)
    | HostEscapeMissing

  /** The text each error carries. */
  function ErrorMessage(e: CompileError): string
  {
    match e
    case UnknownConvertor(t) => "Unknow path convertor '" + t + "'"
    case DuplicatedParams(names, path) =>
      "Duplicated param name" + (if |names| > 1 then "s" else "") + " " + Join(names, ", ") + " at path " + path
    case HostEscapeMissing => "module 're' has no attribute 'escap'"
  }

  /** The literal text before each placeholder, and after the last one. */
  function Pieces(s: string, phs: seq<Placeholder>, i: nat): (r: seq<string>)
    requires WellPlaced(s, phs, i)
    ensures |r| == |phs| + 1
    decreases |phs|
  {
    if phs == [] then [s[i..]] else [s[i..phs[0].start]] + Pieces(s, phs[1..], phs[0].end)
  }

  /** The placeholder texts as written in the template. */
  function Texts(s: string, phs: seq<Placeholder>, i: nat): (r: seq<string>)
    requires WellPlaced(s, phs, i)
    ensures |r| == |phs|
    decreases |phs|
  {
    if phs == [] then [] else [s[phs[0].start..phs[0].end]] + Texts(s, phs[1..], phs[0].end)
  }

  /** Each placeholder rewritten as `{name}`. */
  function BareNames(phs: seq<Placeholder>): (r: seq<string>)
    ensures |r| == |phs|
  {
    if phs == [] then [] else ["{" + phs[0].name + "}"] + BareNames(phs[1..])
  }

  /** `lits[0] + holes[0] + lits[1] + ... + holes[n-1] + lits[n]`. */
  function Interleave(lits: seq<string>, holes: seq<string>): string
    requires |lits| == |holes| + 1
  {
    if holes == [] then lits[0] else lits[0] + holes[0] + Interleave(lits[1..], holes[1..])
  }

  /** `[Literal(lits[0]), holes[0], Literal(lits[1]), ..., Literal(lits[n])]`. */
  function Alternate(lits: seq<string>, params: seq<Segment>): seq<Segment>
    requires |lits| == |params| + 1
  {
    if params == [] then [Literal(lits[0])] else [Literal(lits[0]), params[0]] + Alternate(lits[1..], params[1..])
  }

  predicate AllKnown(phs: seq<Placeholder>)
  {
    forall k :: 0 <= k < |phs| ==> LookupConvertor(phs[k].typeName).Some?
  }

  /** The type of the first placeholder whose convertor is not registered. */
  function FirstUnknown(phs: seq<Placeholder>): (r: Option<string>)
    ensures r.None? <==> AllKnown(phs)
    ensures r.Some? ==> LookupConvertor(r.value).None?
    ensures r.Some? ==> exists k :: 0 <= k < |phs| && phs[k].typeName == r.value && AllKnown(phs[..k])
  {
    if phs == [] then None
    else if LookupConvertor(phs[0].typeName).None? then
      assert AllKnown(phs[..0]);
      Some(phs[0].typeName)
    else
      var r := FirstUnknown(phs[1..]);
      if r.Some? then
        var k :| 0 <= k < |phs[1..]| && phs[1..][k].typeName == r.value && AllKnown(phs[1..][..k]);
        FirstUnknownShift(phs, k);
        r
      else r
  }

  /** A known first placeholder before a prefix of the rest keeps the whole prefix known. */
  lemma FirstUnknownShift(phs: seq<Placeholder>, k: nat)
    requires 0 < |phs| && k < |phs| - 1
    requires LookupConvertor(phs[0].typeName).Some? && AllKnown(phs[1..][..k])
    ensures phs[k + 1] == phs[1..][k] && AllKnown(phs[..k + 1])
  {
    var prefix := phs[..k + 1];
    forall j | 0 <= j < k + 1 ensures LookupConvertor(prefix[j].typeName).Some? {
      if j > 0 {
        assert prefix[j] == phs[1..][..k][j - 1];
      }
    }
  }

  function ParamSegments(phs: seq<Placeholder>): (r: seq<Segment>)
    requires AllKnown(phs)
    ensures |r| == |phs|
  {
    if phs == [] then []
    else [Param(phs[0].name, LookupConvertor(phs[0].typeName).value)] + ParamSegments(phs[1..])
  }

  function Names(phs: seq<Placeholder>): (r: seq<string>)
    ensures |r| == |phs| && forall k :: 0 <= k < |phs| ==> r[k] == phs[k].name
  {
    seq(|phs|, k requires 0 <= k < |phs| => phs[k].name)
  }

  /** `param_convertors` after the loop: later placeholders overwrite earlier ones. */
  function ConvertorMap(phs: seq<Placeholder>): map<string, ConvertorKind>
    requires AllKnown(phs)
  {
    if phs == [] then map[]
    else
      var last := phs[|phs| - 1];
      ConvertorMap(phs[..|phs| - 1])[last.name := LookupConvertor(last.typeName).value]
  }

  /** `duplicated_params` after the loop: names already seen when met again. */
  function DuplicateNames(phs: seq<Placeholder>): set<string>
  {
    if phs == [] then {}
    else
      var init := phs[..|phs| - 1];
      var last := phs[|phs| - 1];
      DuplicateNames(init) + (if last.name in Names(init) then {last.name} else {})
  }

  // ---------------------------------------------------------------------
  // The compiler

  /** A template compiles when its convertors are known, its names distinct and it starts with `/`. */
  predicate Compiles(path: string)
  {
    var phs := Placeholders(path, 0);
    AllKnown(phs) && DuplicateNames(phs) == {} && StartsWith(path, "/")
  }

  /** The matcher, format and convertor map built from the template's placeholders. */
  function Compiled(path: string): CompiledPath
    requires AllKnown(Placeholders(path, 0))
  {
    var phs := Placeholders(path, 0);
    CompiledPath(Alternate(Pieces(path, phs, 0), ParamSegments(phs)),
                 Interleave(Pieces(path, phs, 0), BareNames(phs)), ConvertorMap(phs))
  }

  /** `sorted(names)` for a set of strings. */
  method SortedNames(names: set<string>) returns (r: seq<string>)
    ensures Sorted(r) && NoDuplicates(r) && Elements(r) == names
  {
    var xs: seq<string> := [];
    var left := names;
    while left != {}
      invariant NoDuplicates(xs)
      invariant Elements(xs) + left == names && Elements(xs) !! left
      decreases left
    {
      var x :| x in left;
      xs := xs + [x];
      left := left - {x};
    }
    r := SortStrings(xs);
    DistinctMultisetPreserved(xs, r);
  }

  lemma AllKnownSnoc(done: seq<Placeholder>, ph: Placeholder)
    requires AllKnown(done) && LookupConvertor(ph.typeName).Some?
    ensures AllKnown(done + [ph])
  {
    assert forall k :: 0 <= k < |done| ==> (done + [ph])[k] == done[k];
  }

  /** Both left folds take one more step when a placeholder is appended. */
  lemma SnocFolds(done: seq<Placeholder>, ph: Placeholder)
    ensures DuplicateNames(done + [ph]) == DuplicateNames(done) + (if ph.name in Names(done) then {ph.name} else {})
    ensures AllKnown(done) && LookupConvertor(ph.typeName).Some? ==>
      ConvertorMap(done + [ph]) == ConvertorMap(done)[ph.name := LookupConvertor(ph.typeName).value]
  {
    assert (done + [ph])[..|done|] == done;
  }

  lemma Reassociate<T>(a: seq<T>, b: seq<T>, c: seq<T>)
    ensures (a + b) + c == a + (b + c)
  {
  }

  /** How one `finditer` step splits every specification of the rest of the scan. */
  lemma ScanStep(path: string, idx: nat, ph: Placeholder)
    requires idx <= |path| && FindFrom(path, idx) == Some(ph)
    ensures var rest := Placeholders(path, idx); var next := Placeholders(path, ph.end);
      && rest == [ph] + next
      && Interleave(Pieces(path, rest, idx), BareNames(rest))
           == path[idx..ph.start] + "{" + ph.name + "}" + Interleave(Pieces(path, next, ph.end), BareNames(next))
      && (LookupConvertor(ph.typeName).Some? ==> FirstUnknown(rest) == FirstUnknown(next))
      && (AllKnown(rest) ==>
            Alternate(Pieces(path, rest, idx), ParamSegments(rest))
              == [Literal(path[idx..ph.start]), Param(ph.name, LookupConvertor(ph.typeName).value)]
                 + Alternate(Pieces(path, next, ph.end), ParamSegments(next)))
  {
    ScanStepRest(path, idx, ph);
    ScanStepFormat(path, idx, ph);
    ScanStepUnknown(path, idx, ph);
    ScanStepMatcher(path, idx, ph);
  }

  lemma ScanStepRest(path: string, idx: nat, ph: Placeholder)
    requires idx <= |path| && FindFrom(path, idx) == Some(ph)
    ensures Placeholders(path, idx) == [ph] + Placeholders(path, ph.end)
  {
  }

  lemma ScanStepFormat(path: string, idx: nat, ph: Placeholder)
    requires idx <= |path| && FindFrom(path, idx) == Some(ph)
    ensures var rest := Placeholders(path, idx); var next := Placeholders(path, ph.end);
      Interleave(Pieces(path, rest, idx), BareNames(rest))
        == path[idx..ph.start] + "{" + ph.name + "}" + Interleave(Pieces(path, next, ph.end), BareNames(next))
  {
    ScanStepRest(path, idx, ph);
    var rest := Placeholders(path, idx);
    var next := Placeholders(path, ph.end);
    assert rest[0] == ph && rest[1..] == next;
    var lits, holes := Pieces(path, rest, idx), BareNames(rest);
    assert lits[0] == path[idx..ph.start] && lits[1..] == Pieces(path, next, ph.end);
    assert holes[0] == "{" + ph.name + "}" && holes[1..] == BareNames(next);
    assert Interleave(lits, holes) == lits[0] + holes[0] + Interleave(lits[1..], holes[1..]);
    BracePiece(path[idx..ph.start], ph.name);
  }

  lemma BracePiece(text: string, name: string)
    ensures text + ("{" + name + "}") == text + "{" + name + "}"
  {
  }

  lemma ScanStepUnknown(path: string, idx: nat, ph: Placeholder)
    requires idx <= |path| && FindFrom(path, idx) == Some(ph)
    ensures LookupConvertor(ph.typeName).Some? ==>
      FirstUnknown(Placeholders(path, idx)) == FirstUnknown(Placeholders(path, ph.end))
  {
    ScanStepRest(path, idx, ph);
    var rest := Placeholders(path, idx);
    assert rest[0] == ph && rest[1..] == Placeholders(path, ph.end);
  }

  lemma ScanStepMatcher(path: string, idx: nat, ph: Placeholder)
    requires idx <= |path| && FindFrom(path, idx) == Some(ph)
    ensures var rest := Placeholders(path, idx); var next := Placeholders(path, ph.end);
      AllKnown(rest) ==>
        Alternate(Pieces(path, rest, idx), ParamSegments(rest))
          == [Literal(path[idx..ph.start]), Param(ph.name, LookupConvertor(ph.typeName).value)]
             + Alternate(Pieces(path, next, ph.end), ParamSegments(next))
  {
    ScanStepRest(path, idx, ph);
    var rest := Placeholders(path, idx);
    var next := Placeholders(path, ph.end);
    assert rest[0] == ph && rest[1..] == next;
    if AllKnown(rest) {
      assert Pieces(path, rest, idx) == [path[idx..ph.start]] + Pieces(path, next, ph.end);
      assert ParamSegments(rest) == [Param(ph.name, LookupConvertor(ph.typeName).value)] + ParamSegments(next);
    }
  }

  /**
   * What the scan has built after consuming the placeholders `done`, the
   * first ones of `all`, up to position `idx`: with the specifications of the
   * rest of the scan appended, the specifications of the whole template.
   */
  ghost predicate ScanInvariant(path: string, all: seq<Placeholder>, done: seq<Placeholder>, idx: nat,
                                matcher: seq<Segment>, format: string,
                                duplicated: set<string>, convertors: map<string, ConvertorKind>)
  {
    && idx <= |path|
    && all == Placeholders(path, 0)
    && done + Placeholders(path, idx) == all
    && AllKnown(done) && FirstUnknown(all) == FirstUnknown(Placeholders(path, idx))
    && (AllKnown(all) ==>
          matcher + Alternate(Pieces(path, Placeholders(path, idx), idx), ParamSegments(Placeholders(path, idx)))
            == Alternate(Pieces(path, all, 0), ParamSegments(all)))
    && format + Interleave(Pieces(path, Placeholders(path, idx), idx), BareNames(Placeholders(path, idx)))
         == Interleave(Pieces(path, all, 0), BareNames(all))
    && convertors == ConvertorMap(done)
    && duplicated == DuplicateNames(done)
  }

  /** One iteration of the scan loop keeps `ScanInvariant`. */
  lemma ScanInvariantStep(path: string, all: seq<Placeholder>, done: seq<Placeholder>, idx: nat,
                          matcher: seq<Segment>, format: string,
                          duplicated: set<string>, convertors: map<string, ConvertorKind>, ph: Placeholder)
    requires ScanInvariant(path, all, done, idx, matcher, format, duplicated, convertors)
    requires FindFrom(path, idx) == Some(ph) && LookupConvertor(ph.typeName).Some?
    ensures var conv := LookupConvertor(ph.typeName).value;
      ScanInvariant(path, all, done + [ph], ph.end,
                    matcher + [Literal(path[idx..ph.start]), Param(ph.name, conv)],
                    format + (path[idx..ph.start] + "{" + ph.name + "}"),
                    if ph.name in convertors then duplicated + {ph.name} else duplicated,
                    convertors[ph.name := conv])
  {
    ScanStep(path, idx, ph);
    StepTexts(path, all, idx, matcher, format, ph);
    StepFolds(done, duplicated, convertors, ph);
    AllKnownSnoc(done, ph);
    Reassociate(done, [ph], Placeholders(path, ph.end));
  }

  /** The matcher and format parts of `ScanInvariant` after one iteration. */
  lemma StepTexts(path: string, all: seq<Placeholder>, idx: nat, matcher: seq<Segment>, format: string, ph: Placeholder)
    requires idx <= |path| && FindFrom(path, idx) == Some(ph) && LookupConvertor(ph.typeName).Some?
    requires FirstUnknown(all) == FirstUnknown(Placeholders(path, idx))
    requires all == Placeholders(path, 0)
    requires AllKnown(all) ==>
      matcher + Alternate(Pieces(path, Placeholders(path, idx), idx), ParamSegments(Placeholders(path, idx)))
        == Alternate(Pieces(path, all, 0), ParamSegments(all))
    requires format + Interleave(Pieces(path, Placeholders(path, idx), idx), BareNames(Placeholders(path, idx)))
      == Interleave(Pieces(path, all, 0), BareNames(all))
    ensures var conv := LookupConvertor(ph.typeName).value; var next := Placeholders(path, ph.end);
      && FirstUnknown(all) == FirstUnknown(next)
      && (AllKnown(all) ==>
            (matcher + [Literal(path[idx..ph.start]), Param(ph.name, conv)])
              + Alternate(Pieces(path, next, ph.end), ParamSegments(next))
            == Alternate(Pieces(path, all, 0), ParamSegments(all)))
      && (format + (path[idx..ph.start] + "{" + ph.name + "}"))
           + Interleave(Pieces(path, next, ph.end), BareNames(next))
         == Interleave(Pieces(path, all, 0), BareNames(all))
  {
    var conv := LookupConvertor(ph.typeName).value;
    ScanStep(path, idx, ph);
    var next := Placeholders(path, ph.end);
    Reassociate(format, path[idx..ph.start] + "{" + ph.name + "}", Interleave(Pieces(path, next, ph.end), BareNames(next)));
    if AllKnown(all) {
      Reassociate(matcher, [Literal(path[idx..ph.start]), Param(ph.name, conv)],
                  Alternate(Pieces(path, next, ph.end), ParamSegments(next)));
    }
  }

  /** The convertor map and duplicate set after one iteration. */
  lemma StepFolds(done: seq<Placeholder>, duplicated: set<string>, convertors: map<string, ConvertorKind>, ph: Placeholder)
    requires AllKnown(done) && LookupConvertor(ph.typeName).Some?
    requires convertors == ConvertorMap(done) && duplicated == DuplicateNames(done)
    ensures var conv := LookupConvertor(ph.typeName).value;
      && convertors[ph.name := conv] == ConvertorMap(done + [ph])
      && (if ph.name in convertors then duplicated + {ph.name} else duplicated) == DuplicateNames(done + [ph])
  {
    ConvertorMapKeys(done);
    SnocFolds(done, ph);
    assert ph.name in convertors <==> ph.name in Names(done);
  }

  /**
   * The `for match in PARAM_REGEX.finditer(path)` loop of `compile_path`. It
   * stops at the first placeholder whose convertor type is not registered;
   * otherwise it has consumed every placeholder, and `idx` is where the last
   * one ends.
   */
  method ScanTemplate(path: string)
    returns (unknown: Option<string>, matcher: seq<Segment>, format: string,
             duplicated: set<string>, convertors: map<string, ConvertorKind>, idx: nat)
    ensures idx <= |path|
    ensures unknown == FirstUnknown(Placeholders(path, 0))
    ensures var phs := Placeholders(path, 0);
      unknown.None? ==>
        && matcher + [Literal(path[idx..])] == Alternate(Pieces(path, phs, 0), ParamSegments(phs))
        && format + path[idx..] == Interleave(Pieces(path, phs, 0), BareNames(phs))
        && convertors == ConvertorMap(phs)
        && duplicated == DuplicateNames(phs)
  {
    ghost var all := Placeholders(path, 0);
    ghost var done: seq<Placeholder> := [];
    matcher, format, duplicated, idx, convertors := [], "", {}, 0, map[];
    var m := FindFrom(path, 0);
    while m.Some?
      invariant ScanInvariant(path, all, done, idx, matcher, format, duplicated, convertors)
      invariant m == FindFrom(path, idx)
      decreases |path| - idx
    {
      var ph := m.value;
      var convertor := LookupConvertor(ph.typeName);
      if convertor.None? {
        ScanStep(path, idx, ph);
        return Some(ph.typeName), matcher, format, duplicated, convertors, idx;
      }
      ScanInvariantStep(path, all, done, idx, matcher, format, duplicated, convertors, ph);
      matcher := matcher + [Literal(path[idx..ph.start]), Param(ph.name, convertor.value)];
      format := format + (path[idx..ph.start] + "{" + ph.name + "}");
      if ph.name in convertors {
        duplicated := duplicated + {ph.name};
      }
      convertors := convertors[ph.name := convertor.value];
      done := done + [ph];
      idx := ph.end;
      m := FindFrom(path, idx);
    }
    assert done == all;
    unknown := None;
  }

  /**
   * `compile_path(path)`. Errors are raised in this order: an unknown
   * convertor type as soon as the scan meets it, then repeated names after
   * the scan, then the host branch for templates not starting with `/`,
   * which calls the non-existent `re.escap` and so always fails.
   */
  method CompilePath(path: string) returns (r: Result<CompiledPath, CompileError>)
    ensures r.Ok? <==> Compiles(path)
    ensures var phs := Placeholders(path, 0);
      FirstUnknown(phs).Some? ==> r == Err(UnknownConvertor(FirstUnknown(phs).value))
    ensures var phs := Placeholders(path, 0);
      AllKnown(phs) && DuplicateNames(phs) != {} ==>
        && r.Err? && r.error.DuplicatedParams? && r.error.path == path
        && Sorted(r.error.names) && NoDuplicates(r.error.names)
        && Elements(r.error.names) == DuplicateNames(phs)
    ensures var phs := Placeholders(path, 0);
      AllKnown(phs) && DuplicateNames(phs) == {} && !StartsWith(path, "/") ==> r == Err(HostEscapeMissing)
    ensures r.Ok? ==> AllKnown(Placeholders(path, 0)) && r.value == Compiled(path)
  {
    var isHost := !StartsWith(path, "/");
    var unknown, matcher, format, duplicated, convertors, idx := ScanTemplate(path);
    if unknown.Some? {
      return Err(UnknownConvertor(unknown.value));
    }
    if duplicated != {} {
      var names := SortedNames(duplicated);
      return Err(DuplicatedParams(names, path));
    }
    if isHost {
      return Err(HostEscapeMissing);
    }
    matcher := matcher + [Literal(path[idx..])];
    format := format + path[idx..];
    r := Ok(CompiledPath(matcher, format, convertors));
  }

  // ---------------------------------------------------------------------
  // Properties of what the compiler builds

  lemma {:induction false} ConvertorMapKeys(phs: seq<Placeholder>)
    requires AllKnown(phs)
    ensures ConvertorMap(phs).Keys == Elements(Names(phs))
    decreases |phs|
  {
    if phs != [] {
      var init := phs[..|phs| - 1];
      ConvertorMapKeys(init);
      assert Names(phs) == Names(init) + [phs[|phs| - 1].name];
    }
  }

  /** A name maps to the convertor of its last placeholder: later entries overwrite. */
  lemma {:induction false} ConvertorMapAt(phs: seq<Placeholder>, k: nat)
    requires AllKnown(phs) && k < |phs|
    requires forall j :: k < j < |phs| ==> phs[j].name != phs[k].name
    ensures phs[k].name in ConvertorMap(phs)
    ensures ConvertorMap(phs)[phs[k].name] == LookupConvertor(phs[k].typeName).value
    decreases |phs|
  {
    var init := phs[..|phs| - 1];
    if k < |phs| - 1 {
      assert init[k] == phs[k];
      ConvertorMapAt(init, k);
    }
  }

  /**
   * `param_convertors` has exactly the template's names as keys, and when no
   * name repeats, each maps to the registry convertor of its own type.
   */
  lemma ConvertorMapSpec(phs: seq<Placeholder>)
    requires AllKnown(phs)
    ensures ConvertorMap(phs).Keys == Elements(Names(phs))
    ensures NoDuplicates(Names(phs)) ==>
      forall k :: 0 <= k < |phs| ==> ConvertorMap(phs)[phs[k].name] == LookupConvertor(phs[k].typeName).value
  {
    ConvertorMapKeys(phs);
    if NoDuplicates(Names(phs)) {
      forall k | 0 <= k < |phs|
        ensures ConvertorMap(phs)[phs[k].name] == LookupConvertor(phs[k].typeName).value
      {
        forall j | k < j < |phs| ensures phs[j].name != phs[k].name {
          assert Names(phs)[k] != Names(phs)[j];
        }
        ConvertorMapAt(phs, k);
      }
    }
  }

  /** A reported name is carried by two placeholders. */
  lemma {:induction false} DuplicateNamesSound(phs: seq<Placeholder>, n: string)
    requires n in DuplicateNames(phs)
    ensures exists i, j :: 0 <= i < j < |phs| && phs[i].name == n && phs[j].name == n
    decreases |phs|
  {
    var init := phs[..|phs| - 1];
    var last := |phs| - 1;
    if n in DuplicateNames(init) {
      DuplicateNamesSound(init, n);
      var i, j :| 0 <= i < j < |init| && init[i].name == n && init[j].name == n;
      assert phs[i] == init[i] && phs[j] == init[j];
    } else {
      assert phs[last].name == n && n in Names(init);
      var i :| 0 <= i < |init| && Names(init)[i] == n;
      assert phs[i] == init[i];
    }
  }

  /** A name carried by two placeholders is reported. */
  lemma {:induction false} DuplicateNamesComplete(phs: seq<Placeholder>, i: nat, j: nat)
    requires i < j < |phs| && phs[i].name == phs[j].name
    ensures phs[i].name in DuplicateNames(phs)
    decreases |phs|
  {
    var init := phs[..|phs| - 1];
    assert phs[i] == init[i];
    if j < |phs| - 1 {
      assert phs[j] == init[j];
      DuplicateNamesComplete(init, i, j);
    } else {
      assert Names(init)[i] == phs[i].name;
    }
  }

  /** A name is reported as duplicated exactly when two placeholders carry it. */
  lemma DuplicateNamesSpec(phs: seq<Placeholder>, n: string)
    ensures n in DuplicateNames(phs) <==>
      exists i, j :: 0 <= i < j < |phs| && phs[i].name == n && phs[j].name == n
  {
    if n in DuplicateNames(phs) {
      DuplicateNamesSound(phs, n);
    }
    if exists i, j :: 0 <= i < j < |phs| && phs[i].name == n && phs[j].name == n {
      var i, j :| 0 <= i < j < |phs| && phs[i].name == n && phs[j].name == n;
      DuplicateNamesComplete(phs, i, j);
    }
  }

  /** No duplicate error exactly when the names are pairwise distinct. */
  lemma NoDuplicateNamesIff(phs: seq<Placeholder>)
    ensures DuplicateNames(phs) == {} <==> NoDuplicates(Names(phs))
  {
    if DuplicateNames(phs) != {} {
      var n :| n in DuplicateNames(phs);
      DuplicateNamesSpec(phs, n);
      var i, j :| 0 <= i < j < |phs| && phs[i].name == n && phs[j].name == n;
      assert Names(phs)[i] == Names(phs)[j];
    }
    if !NoDuplicates(Names(phs)) {
      var i, j :| 0 <= i < j < |phs| && Names(phs)[i] == Names(phs)[j];
      DuplicateNamesSpec(phs, phs[i].name);
    }
  }

  /** The template is its literal pieces interleaved with the placeholder texts. */
  lemma {:induction false} TemplateDecomposition(s: string, phs: seq<Placeholder>, i: nat)
    requires WellPlaced(s, phs, i)
    ensures s[i..] == Interleave(Pieces(s, phs, i), Texts(s, phs, i))
    decreases |phs|
  {
    if phs != [] {
      var st, en := phs[0].start, phs[0].end;
      TemplateDecomposition(s, phs[1..], en);
      SliceSplit(s, i, st);
      SliceSplit(s, st, en);
      var lits, texts := Pieces(s, phs, i), Texts(s, phs, i);
      assert lits[0] == s[i..st] && lits[1..] == Pieces(s, phs[1..], en);
      assert texts[0] == s[st..en] && texts[1..] == Texts(s, phs[1..], en);
      assert Interleave(lits, texts) == lits[0] + texts[0] + Interleave(lits[1..], texts[1..]);
      Reassociate(s[i..st], s[st..en], s[en..]);
    }
  }

  lemma SliceSplit(s: string, i: nat, j: nat)
    requires i <= j <= |s|
    ensures s[i..] == s[i..j] + s[j..]
  {
  }

  /** Every placeholder text is `{name}` or `{name:type}`; `{name}` has type `str`. */
  lemma {:induction false} TextsAreBracedNames(s: string, phs: seq<Placeholder>, i: nat, k: nat)
    requires WellPlaced(s, phs, i) && k < |phs|
    ensures IsParamName(phs[k].name)
    ensures || (phs[k].typeName == "str" && Texts(s, phs, i)[k] == "{" + phs[k].name + "}")
            || (IsTypeName(phs[k].typeName) && Texts(s, phs, i)[k] == "{" + phs[k].name + ":" + phs[k].typeName + "}")
    decreases k
  {
    if k > 0 {
      TextsAreBracedNames(s, phs[1..], phs[0].end, k - 1);
    } else {
      MatchAtSound(s, phs[0].start);
    }
  }

  /**
   * The matcher alternates literals and named groups in template order:
   * literal piece `k` at position `2k`, placeholder `k` right after it.
   */
  lemma {:induction false} AlternateShape(lits: seq<string>, params: seq<Segment>)
    requires |lits| == |params| + 1
    ensures |Alternate(lits, params)| == 2 * |params| + 1
    ensures forall k :: 0 <= k < |lits| ==> Alternate(lits, params)[2 * k] == Literal(lits[k])
    ensures forall k :: 0 <= k < |params| ==> Alternate(lits, params)[2 * k + 1] == params[k]
    decreases |params|
  {
    if params != [] {
      AlternateShape(lits[1..], params[1..]);
      var a := Alternate(lits, params);
      var tail := Alternate(lits[1..], params[1..]);
      assert a == [Literal(lits[0]), params[0]] + tail;
      forall k | 1 <= k < |lits| ensures a[2 * k] == Literal(lits[k]) {
        assert a[2 * k] == tail[2 * (k - 1)];
      }
      forall k | 1 <= k < |params| ensures a[2 * k + 1] == params[k] {
        assert a[2 * k + 1] == tail[2 * (k - 1) + 1];
      }
    }
  }

  /** The `k`-th parameter segment is the `k`-th placeholder with its registry convertor. */
  lemma {:induction false} ParamSegmentsAt(phs: seq<Placeholder>, k: nat)
    requires AllKnown(phs) && k < |phs|
    ensures ParamSegments(phs)[k] == Param(phs[k].name, LookupConvertor(phs[k].typeName).value)
    decreases k
  {
    if k > 0 {
      ParamSegmentsAt(phs[1..], k - 1);
    }
  }

  /**
   * What a successful compilation means for the caller: the template, the
   * format and the matcher share the same literal pieces; the template has
   * the original placeholder texts between them, the format `{name}`, the
   * matcher a named group per placeholder, in order; the convertor map has
   * one entry per name.
   */
  lemma CompiledPathSpec(path: string)
    requires AllKnown(Placeholders(path, 0)) && DuplicateNames(Placeholders(path, 0)) == {}
    ensures var phs := Placeholders(path, 0); var lits := Pieces(path, phs, 0); var c := Compiled(path);
      && path == Interleave(lits, Texts(path, phs, 0))
      && c.format == Interleave(lits, BareNames(phs))
      && |c.matcher| == 2 * |phs| + 1
      && (forall k :: 0 <= k <= |phs| ==> c.matcher[2 * k] == Literal(lits[k]))
      && (forall k :: 0 <= k < |phs| ==>
            c.matcher[2 * k + 1] == Param(phs[k].name, LookupConvertor(phs[k].typeName).value))
      && c.convertors.Keys == Elements(Names(phs))
      && (forall k :: 0 <= k < |phs| ==> c.convertors[phs[k].name] == LookupConvertor(phs[k].typeName).value)
  {
    var phs := Placeholders(path, 0);
    TemplateDecomposition(path, phs, 0);
    assert path[0..] == path;
    AlternateShape(Pieces(path, phs, 0), ParamSegments(phs));
    forall k | 0 <= k < |phs| ensures ParamSegments(phs)[k] == Param(phs[k].name, LookupConvertor(phs[k].typeName).value) {
      ParamSegmentsAt(phs, k);
    }
    NoDuplicateNamesIff(phs);
    ConvertorMapSpec(phs);
  }

  /** The duplicate error says "names" for several repeated names and "name" for one. */
  lemma DuplicateMessageWording(names: seq<string>, path: string)
    requires |names| > 0
    ensures var msg := ErrorMessage(DuplicatedParams(names, path));
      && |msg| > 22
      && (msg[..22] == "Duplicated param names" <==> |names| > 1)
      && (msg[..22] == "Duplicated param name " <==> |names| == 1)
  {
    var msg := ErrorMessage(DuplicatedParams(names, path));
    var stem := "Duplicated param name";
    if |names| > 1 {
      assert msg == stem + "s" + " " + Join(names, ", ") + " at path " + path;
      assert msg[..22] == stem + "s";
    } else {
      assert msg == stem + " " + Join(names, ", ") + " at path " + path;
      assert msg[..22] == stem + " ";
      assert msg[21] != "Duplicated param names"[21];
    }
  }

  /** The first unknown convertor sits no later than any unknown one. */
  lemma FirstUnknownNoLater(phs: seq<Placeholder>, k: nat)
    requires k < |phs| && LookupConvertor(phs[k].typeName).None?
    ensures FirstUnknown(phs).Some?
    ensures exists j :: 0 <= j <= k && FirstUnknown(phs).value == phs[j].typeName
  {
    assert !AllKnown(phs);
    var r := FirstUnknown(phs);
    var j :| 0 <= j < |phs| && phs[j].typeName == r.value && AllKnown(phs[..j]);
    KnownPrefixEndsBefore(phs, j, k);
  }

  /** A prefix of known placeholders ends at or before any unknown one. */
  lemma KnownPrefixEndsBefore(phs: seq<Placeholder>, j: nat, k: nat)
    requires j <= |phs| && k < |phs| && AllKnown(phs[..j]) && LookupConvertor(phs[k].typeName).None?
    ensures j <= k
  {
  }

  /**
   * A template with an unregistered convertor, such as `{id:money}`, never
   * compiles, and the error names that convertor or an earlier unknown one.
   */
  lemma UnknownConvertorRejected(path: string, k: nat)
    requires var phs := Placeholders(path, 0); k < |phs| && LookupConvertor(phs[k].typeName).None?
    ensures !Compiles(path)
    ensures var phs := Placeholders(path, 0);
      FirstUnknown(phs).Some? && exists j :: 0 <= j <= k && FirstUnknown(phs).value == phs[j].typeName
  {
    FirstUnknownNoLater(Placeholders(path, 0), k);
  }
}
