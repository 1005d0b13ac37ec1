/**
 * The file classifiers of the command-line analyser (src/utils.ts): a file is an Edge file
 * when it declares `export const runtime = 'edge'`, a Client file when its text opens with a
 * `use client` string, a Server Component file when it sits under an `app` directory.
 */
module Utils {
  import opened Wrappers
  import opened Text

  const DoubleQuotedDirective: string := "\"use client\""
  const SingleQuotedDirective: string := "'use client'"

  /** `isClientComponent`: the trimmed text starts with `"use client"` or `'use client'`. */
  predicate IsClientComponent(text: string) {
    StartsWith(Trim(text), DoubleQuotedDirective) || StartsWith(Trim(text), SingleQuotedDirective)
  }

  /** `isAppDir`: the path contains `<sep>app<sep>`, `sep` being the platform's path separator. */
  predicate IsAppDir(path: string, sep: char) {
    Contains(path, [sep] + "app" + [sep])
  }

  predicate IsQuote(c: char) {
    c == '\'' || c == '"'
  }

  /** One element of a regular expression built only from literals, `\s*`/`\s+` runs and the class `['"]`. */
  datatype Token = Word(w: string) | Spaces(min: nat) | Quote

  /** `export\s+const\s+runtime\s*=\s*['"]edge['"]` */
  const EdgePattern: seq<Token> := [
    Word("export"), Spaces(1), Word("const"), Spaces(1), Word("runtime"), Spaces(0),
    Word("="), Spaces(0), Quote, Word("edge"), Quote
  ]

  /**
   * The pattern at the start of `s`, matched greedily: a whitespace run takes all the
   * whitespace there is. When every run is followed by a token that cannot start with
   * whitespace (see `Separated`), the greedy run is the only one that can succeed.
   */
  predicate MatchesAt(s: string, pat: seq<Token>)
    decreases |pat|
  {
    if pat == [] then true
    else match pat[0]
      case Word(w) => StartsWith(s, w) && MatchesAt(s[|w|..], pat[1..])
      case Spaces(min) => var t := TrimStart(s); |s| - |t| >= min && MatchesAt(t, pat[1..])
      case Quote => s != [] && IsQuote(s[0]) && MatchesAt(s[1..], pat[1..])
  }

  /** `isEdgeRuntime`: the declaration occurs somewhere in the text (the regular expression is not anchored). */
  predicate IsEdgeRuntime(text: string) {
    exists i :: 0 <= i <= |text| && MatchesAt(text[i..], EdgePattern)
  }

  /** `getBoundaryLabel`: the first of Edge, Client, Server (RSC) that applies, else Unknown. */
  function GetBoundaryLabel(text: string, path: string, sep: char): (r: string)
    ensures r == "Edge" <==> IsEdgeRuntime(text)
    ensures r == "Client" <==> !IsEdgeRuntime(text) && IsClientComponent(text)
    ensures r == "Server (RSC)" <==> !IsEdgeRuntime(text) && !IsClientComponent(text) && IsAppDir(path, sep)
    ensures r == "Unknown" <==> !IsEdgeRuntime(text) && !IsClientComponent(text) && !IsAppDir(path, sep)
  {
    if IsEdgeRuntime(text) then "Edge"
    else if IsClientComponent(text) then "Client"
    else if IsAppDir(path, sep) then "Server (RSC)"
    else "Unknown"
  }

  // ---------------------------------------------------------------------------------------
  // Reference definitions and properties

  predicate AllSpace(w: string) {
    forall j :: 0 <= j < |w| ==> IsJsSpace(w[j])
  }

  /** What a single token accepts as its piece of the text. */
  predicate PieceMatches(piece: string, t: Token) {
    match t
    case Word(w) => piece == w
    case Spaces(min) => |piece| >= min && AllSpace(piece)
    case Quote => |piece| == 1 && IsQuote(piece[0])
  }

  /**
   * The regular expression's own reading: `s` starts with one piece per token, each piece
   * accepted by its token, however long each whitespace run is taken to be.
   */
  ghost predicate Splits(s: string, pat: seq<Token>, pieces: seq<string>)
    decreases |pat|
  {
    |pieces| == |pat| &&
    (pat == [] || (PieceMatches(pieces[0], pat[0]) && StartsWith(s, pieces[0]) && Splits(s[|pieces[0]|..], pat[1..], pieces[1..])))
  }

  ghost predicate RegexMatchesAt(s: string, pat: seq<Token>) {
    exists pieces :: Splits(s, pat, pieces)
  }

  /** A token that cannot match at a whitespace character. */
  predicate StartsSolid(t: Token) {
    match t
    case Word(w) => w != [] && !IsJsSpace(w[0])
    case Spaces(_) => false
    case Quote => true
  }

  /** Every whitespace run is followed by a token that cannot start with whitespace. */
  predicate Separated(pat: seq<Token>) {
    forall i :: 0 <= i < |pat| - 1 && pat[i].Spaces? ==> StartsSolid(pat[i + 1])
  }

  lemma EdgePatternSeparated()
    ensures Separated(EdgePattern)
  {
  }

  /** Text matched from a solid token starts with a non-space character. */
  lemma SolidStart(s: string, pat: seq<Token>, pieces: seq<string>)
    requires pat != [] && StartsSolid(pat[0]) && Splits(s, pat, pieces)
    ensures s != [] && !IsJsSpace(s[0])
  {
    assert s[..|pieces[0]|] == pieces[0];
    assert s[0] == pieces[0][0];
  }

  /** Whatever the regular expression matches, the greedy matcher accepts. */
  lemma {:induction false} MatcherComplete(s: string, pat: seq<Token>, pieces: seq<string>)
    requires Separated(pat) && Splits(s, pat, pieces)
    ensures MatchesAt(s, pat)
    decreases |pat|
  {
    if pat != [] {
      var rest := s[|pieces[0]|..];
      assert Separated(pat[1..]) by {
        forall i | 0 <= i < |pat[1..]| - 1 && pat[1..][i].Spaces?
          ensures StartsSolid(pat[1..][i + 1])
        {
          assert pat[1..][i] == pat[i + 1];
        }
      }
      MatcherComplete(rest, pat[1..], pieces[1..]);
      match pat[0] {
        case Word(w) =>
        case Quote =>
          assert s[1..] == rest;
        case Spaces(min) =>
          var w := pieces[0];
          assert s == w + rest by {
            assert s == s[..|w|] + rest;
          }
          TrimStartSkips(w, rest);
          if pat[1..] != [] {
            assert StartsSolid(pat[1]);
            SolidStart(rest, pat[1..], pieces[1..]);
            assert TrimStart(rest) == rest;
          }
      }
    }
  }

  /** `trimStart` splits a string into a whitespace run and the rest. */
  lemma TrimStartSplit(a: string)
    ensures a == a[..|a| - |TrimStart(a)|] + TrimStart(a)
    ensures AllSpace(a[..|a| - |TrimStart(a)|])
  {
  }

  /** Whatever the greedy matcher accepts, the regular expression matches. */
  lemma {:induction false} MatcherSound(s: string, pat: seq<Token>) returns (pieces: seq<string>)
    requires MatchesAt(s, pat)
    ensures Splits(s, pat, pieces)
    decreases |pat|
  {
    if pat == [] {
      pieces := [];
    } else {
      var first: string;
      match pat[0] {
        case Word(w) =>
          first := w;
        case Quote =>
          first := s[..1];
        case Spaces(min) =>
          TrimStartSplit(s);
          first := s[..|s| - |TrimStart(s)|];
      }
      assert StartsWith(s, first) && PieceMatches(first, pat[0]);
      var more := MatcherSound(s[|first|..], pat[1..]);
      pieces := [first] + more;
      assert pieces[1..] == more;
    }
  }

  /** The greedy matcher accepts exactly the texts the regular expression matches at their start. */
  lemma EdgeMatcherAgrees(s: string)
    ensures MatchesAt(s, EdgePattern) <==> RegexMatchesAt(s, EdgePattern)
  {
    if MatchesAt(s, EdgePattern) {
      var pieces := MatcherSound(s, EdgePattern);
    }
    if RegexMatchesAt(s, EdgePattern) {
      var pieces :| Splits(s, EdgePattern, pieces);
      EdgePatternSeparated();
      MatcherComplete(s, EdgePattern, pieces);
    }
  }

  /** `isEdgeRuntime` is the regular expression's unanchored search. */
  lemma EdgeRuntimeIsRegexSearch(text: string)
    ensures IsEdgeRuntime(text) <==> exists i :: 0 <= i <= |text| && RegexMatchesAt(text[i..], EdgePattern)
  {
    forall i | 0 <= i <= |text| {
      EdgeMatcherAgrees(text[i..]);
    }
  }

  /** Trailing whitespace cannot hide a prefix that ends in a non-space character. */
  lemma StartsWithTrimEnd(s: string, p: string)
    requires p != [] && !IsJsSpace(p[|p| - 1])
    ensures StartsWith(TrimEnd(s), p) <==> StartsWith(s, p)
  {
    var r := TrimEnd(s);
    if StartsWith(s, p) {
      assert s[|p| - 1] == p[|p| - 1];
    }
    if StartsWith(r, p) {
      assert s[..|p|] == r[..|p|];
    }
  }

  /** Only leading whitespace matters to `isClientComponent`: the trim at the end never changes the answer. */
  lemma ClientComponentByLeadingText(text: string)
    ensures IsClientComponent(text)
      <==> StartsWith(TrimStart(text), DoubleQuotedDirective) || StartsWith(TrimStart(text), SingleQuotedDirective)
  {
    StartsWithTrimEnd(TrimStart(text), DoubleQuotedDirective);
    StartsWithTrimEnd(TrimStart(text), SingleQuotedDirective);
  }

  /** Leading whitespace before the directive is ignored. */
  lemma ClientComponentIgnoresLeadingSpace(w: string, text: string)
    requires AllSpace(w)
    ensures IsClientComponent(w + text) <==> IsClientComponent(text)
  {
    TrimStartSkips(w, text);
  }

  /**
   * Anything but a quote as the first non-space character (a comment, an import) makes the
   * file a non-client file, even when a directive follows: the check is textual.
   */
  lemma ClientComponentNeedsLeadingQuote(text: string)
    requires TrimStart(text) != [] && !IsQuote(TrimStart(text)[0])
    ensures !IsClientComponent(text)
  {
    ClientComponentByLeadingText(text);
    var t := TrimStart(text);
    assert DoubleQuotedDirective[0] == '"' && SingleQuotedDirective[0] == '\'';
    assert !StartsWith(t, DoubleQuotedDirective) by {
      if |DoubleQuotedDirective| <= |t| {
        assert t[..|DoubleQuotedDirective|][0] == t[0];
      }
    }
    assert !StartsWith(t, SingleQuotedDirective) by {
      if |SingleQuotedDirective| <= |t| {
        assert t[..|SingleQuotedDirective|][0] == t[0];
      }
    }
  }

  /** `isAppDir` holds exactly when `<sep>app<sep>` occurs at some position. */
  lemma AppDirOccurrence(path: string, sep: char)
    ensures IsAppDir(path, sep) <==> exists i :: 0 <= i <= |path| && StartsWith(path[i..], [sep] + "app" + [sep])
  {
    var m := [sep] + "app" + [sep];
    match IndexOf(path, m)
    case Some(i) =>
      assert path[i..][..|m|] == path[i..i + |m|];
    case None =>
  }

  /** `…/app/…` paths are app-directory paths. */
  lemma AppDirOfInfix(a: string, b: string, sep: char)
    ensures IsAppDir(a + [sep] + "app" + [sep] + b, sep)
  {
    assert a + [sep] + "app" + [sep] + b == a + ([sep] + "app" + [sep]) + b;
    ContainsInfix(a, [sep] + "app" + [sep], b);
  }

  /** An Edge declaration wins over a `use client` directive and over the location. */
  lemma EdgeTakesPrecedence(text: string, path: string, sep: char)
    requires IsEdgeRuntime(text) && IsClientComponent(text) && IsAppDir(path, sep)
    ensures GetBoundaryLabel(text, path, sep) == "Edge"
  {
  }
}
