/**
 * `scripts/fix-lucide-imports.js`: the one-off script that rewrites every
 * `import { A, B as C } from "lucide-react"` under `src/` into one direct
 * import per icon from `lucide-react/dist/esm/icons/<kebab-name>`.
 *
 * The directory tree the walk reads is an `Entry` value, and the file
 * contents `processFile` reads and writes are a `Project`'s map from paths
 * to text. Paths are lists of segments, which `path.join` would join with
 * `/`. The two regular expressions of the script are written out as
 * scanners, generic over the words of the import pattern.
 */
module FixLucideImports {
  import opened Wrappers
  import opened Strings

  predicate IsUpper(c: char) { 'A' <= c <= 'Z' }
  predicate IsLower(c: char) { 'a' <= c <= 'z' }

  // ---------------------------------------------------------------- toKebabCase

  /**
   * `str.replace(/([a-z0-9])([A-Z])/g, '$1-$2')`: scanning from the left,
   * a lower-case letter or digit followed by a capital gets a `-` between
   * them, and the scan resumes after the capital.
   */
  function Pass1(s: string): (r: string)
    ensures |s| <= |r| <= 2 * |s|
    decreases |s|
  {
    if |s| >= 2 && (IsLower(s[0]) || IsDigit(s[0])) && IsUpper(s[1]) then [s[0], '-', s[1]] + Pass1(s[2..])
    else if s == [] then []
    else [s[0]] + Pass1(s[1..])
  }

  /**
   * `.replace(/([A-Z])([A-Z][a-z])/g, '$1-$2')`: a capital followed by a
   * capital and a lower-case letter gets a `-` after the first capital,
   * and the scan resumes after the lower-case letter.
   */
  function Pass2(s: string): (r: string)
    ensures |s| <= |r| <= 2 * |s|
    decreases |s|
  {
    if |s| >= 3 && IsUpper(s[0]) && IsUpper(s[1]) && IsLower(s[2]) then [s[0], '-', s[1], s[2]] + Pass2(s[3..])
    else if s == [] then []
    else [s[0]] + Pass2(s[1..])
  }

  /** The scans add only dashes: any other character absent before is absent after. */
  lemma {:induction false} ScansKeepOut(s: string, c: char)
    requires c !in s && c != '-'
    ensures c !in Pass1(s) && c !in Pass2(s)
    decreases |s|
  {
    if |s| >= 2 {
      assert c !in s[2..];
      ScansKeepOut(s[2..], c);
    }
    if |s| >= 3 {
      assert c !in s[3..];
      ScansKeepOut(s[3..], c);
    }
    if s != [] {
      assert c !in s[1..];
      ScansKeepOut(s[1..], c);
    }
  }

  /** `toKebabCase(str)`. */
  function ToKebabCase(s: string): (r: string)
    ensures forall k :: 0 <= k < |r| ==> !IsUpper(r[k])
  {
    ToLower(Pass2(Pass1(s)))
  }

  /** `s` with every `-` taken out. */
  function Undashed(s: string): (r: string)
    ensures |r| <= |s|
  {
    if s == [] then [] else (if s[0] == '-' then [] else [s[0]]) + Undashed(s[1..])
  }

  lemma {:induction false} UndashedConcat(a: string, b: string)
    ensures Undashed(a + b) == Undashed(a) + Undashed(b)
  {
    if a != [] {
      assert (a + b)[0] == a[0];
      assert (a + b)[1..] == a[1..] + b;
      UndashedConcat(a[1..], b);
    } else {
      assert a + b == b;
    }
  }

  /** The pieces the scans put in front of the rest of the name. */
  lemma UndashedPieces(a: char, b: char, c: char)
    requires a != '-' && b != '-' && c != '-'
    ensures Undashed([a]) == [a] && Undashed([a, b]) == [a, b]
    ensures Undashed([a, '-', b]) == [a, b] && Undashed([a, b, c]) == [a, b, c]
    ensures Undashed([a, '-', b, c]) == [a, b, c]
  {
    assert Undashed([c]) == [c] by { assert [c][1..] == []; }
    assert Undashed([b]) == [b] by { assert [b][1..] == []; }
    assert Undashed([a]) == [a] by { assert [a][1..] == []; }
    assert Undashed([b, c]) == [b, c] by { assert [b, c][1..] == [c]; }
    assert Undashed(['-', b]) == [b] by { assert ['-', b][1..] == [b]; }
    assert Undashed(['-', b, c]) == [b, c] by { assert ['-', b, c][1..] == [b, c]; }
    assert [a, b][1..] == [b] && [a, '-', b][1..] == ['-', b];
    assert [a, b, c][1..] == [b, c] && [a, '-', b, c][1..] == ['-', b, c];
  }

  lemma {:induction false} Pass1OnlyDashes(s: string)
    ensures Undashed(Pass1(s)) == Undashed(s)
    decreases |s|
  {
    if |s| >= 2 && IsTail(s[0]) && IsUpper(s[1]) {
      Pass1OnlyDashes(s[2..]);
      Pass1DashStep(s);
    } else if s != [] {
      Pass1OnlyDashes(s[1..]);
      Pass1KeepStep(s);
    }
  }

  lemma Pass1DashStep(s: string)
    requires |s| >= 2 && IsTail(s[0]) && IsUpper(s[1])
    requires Undashed(Pass1(s[2..])) == Undashed(s[2..])
    ensures Undashed(Pass1(s)) == Undashed(s)
  {
    var q := [s[0], s[1]];
    assert Undashed(Pass1(s)) == q + Undashed(Pass1(s[2..])) by {
      Pass1Dash(s);
      UndashedPieces(s[0], s[1], s[1]);
      UndashedConcat([s[0], '-', s[1]], Pass1(s[2..]));
    }
    assert Undashed(s) == q + Undashed(s[2..]) by {
      assert s == q + s[2..];
      UndashedPieces(s[0], s[1], s[1]);
      UndashedConcat(q, s[2..]);
    }
  }

  lemma Pass1KeepStep(s: string)
    requires s != [] && !(|s| >= 2 && IsTail(s[0]) && IsUpper(s[1]))
    requires Undashed(Pass1(s[1..])) == Undashed(s[1..])
    ensures Undashed(Pass1(s)) == Undashed(s)
  {
    Pass1Keep(s);
    UndashedConcat([s[0]], Pass1(s[1..]));
    assert s == [s[0]] + s[1..];
    UndashedConcat([s[0]], s[1..]);
  }

  lemma {:induction false} Pass2OnlyDashes(s: string)
    ensures Undashed(Pass2(s)) == Undashed(s)
    decreases |s|
  {
    if |s| >= 3 && IsUpper(s[0]) && IsUpper(s[1]) && IsLower(s[2]) {
      Pass2OnlyDashes(s[3..]);
      Pass2DashStep(s);
    } else if s != [] {
      Pass2OnlyDashes(s[1..]);
      Pass2KeepStep(s);
    }
  }

  lemma Pass2DashStep(s: string)
    requires |s| >= 3 && IsUpper(s[0]) && IsUpper(s[1]) && IsLower(s[2])
    requires Undashed(Pass2(s[3..])) == Undashed(s[3..])
    ensures Undashed(Pass2(s)) == Undashed(s)
  {
    var q := [s[0], s[1], s[2]];
    assert Undashed(Pass2(s)) == q + Undashed(Pass2(s[3..])) by {
      UndashedPieces(s[0], s[1], s[2]);
      UndashedConcat([s[0], '-', s[1], s[2]], Pass2(s[3..]));
    }
    assert Undashed(s) == q + Undashed(s[3..]) by {
      assert s == q + s[3..];
      UndashedPieces(s[0], s[1], s[2]);
      UndashedConcat(q, s[3..]);
    }
  }

  lemma Pass2KeepStep(s: string)
    requires s != [] && !(|s| >= 3 && IsUpper(s[0]) && IsUpper(s[1]) && IsLower(s[2]))
    requires Undashed(Pass2(s[1..])) == Undashed(s[1..])
    ensures Undashed(Pass2(s)) == Undashed(s)
  {
    UndashedConcat([s[0]], Pass2(s[1..]));
    assert s == [s[0]] + s[1..];
    UndashedConcat([s[0]], s[1..]);
  }

  lemma {:induction false} UndashedLower(s: string)
    ensures Undashed(ToLower(s)) == ToLower(Undashed(s))
  {
    if s != [] {
      assert ToLower(s)[1..] == ToLower(s[1..]);
      UndashedLower(s[1..]);
      UndashedConcat(if s[0] == '-' then [] else [s[0]], Undashed(s[1..]));
      assert ToLower((if s[0] == '-' then [] else [s[0]]) + Undashed(s[1..]))
          == ToLower(if s[0] == '-' then [] else [s[0]]) + ToLower(Undashed(s[1..]));
    }
  }

  /**
   * The kebab name only adds dashes to the lower-cased name: taking every
   * `-` out gives the lower-cased icon name without its own dashes.
   */
  lemma KebabOnlyAddsDashes(s: string)
    ensures Undashed(ToKebabCase(s)) == ToLower(Undashed(s))
  {
    Pass1OnlyDashes(s);
    Pass2OnlyDashes(Pass1(s));
    UndashedLower(Pass2(Pass1(s)));
  }

  /** A character other than a dash that is absent from the name is absent from its kebab form. */
  lemma KebabKeepsOut(s: string, c: char)
    requires c !in s && c != '-' && !IsUpper(c) && !IsLower(c)
    ensures c !in ToKebabCase(s)
  {
    ScansKeepOut(s, c);
    ScansKeepOut(Pass1(s), c);
    var t := Pass2(Pass1(s));
    assert c !in t;
    forall k | 0 <= k < |t| ensures ToLower(t)[k] != c {
      assert ToLower(t)[k] == LowerChar(t[k]);
    }
  }

  /** A character that may follow the capital of a word: a lower-case letter or a digit. */
  predicate IsTail(c: char) { IsLower(c) || IsDigit(c) }

  /** A capitalised word: a capital, then at least one lower-case letter or digit. */
  predicate IsWord(w: string) {
    |w| >= 2 && IsUpper(w[0]) && forall k :: 1 <= k < |w| ==> IsTail(w[k])
  }

  /** The words written one after the other, as in `ArrowRight`. */
  function Concat(ws: seq<string>): string {
    if ws == [] then "" else ws[0] + Concat(ws[1..])
  }

  /** Each word with a `-` in front of it. */
  function DashConcat(ws: seq<string>): string {
    if ws == [] then "" else "-" + ws[0] + DashConcat(ws[1..])
  }

  /** One step of the first scan where no dash goes in. */
  lemma Pass1Keep(s: string)
    requires s != [] && !(|s| >= 2 && IsTail(s[0]) && IsUpper(s[1]))
    ensures Pass1(s) == [s[0]] + Pass1(s[1..])
  {
  }

  /** One step of the first scan where a dash goes in. */
  lemma Pass1Dash(s: string)
    requires |s| >= 2 && IsTail(s[0]) && IsUpper(s[1])
    ensures Pass1(s) == [s[0], '-', s[1]] + Pass1(s[2..])
  {
  }

  /** All tail characters. */
  predicate AllTail(t: string) {
    forall k :: 0 <= k < |t| ==> IsTail(t[k])
  }

  /** All capitalised words. */
  predicate AllWords(ws: seq<string>) {
    forall i :: 0 <= i < |ws| ==> IsWord(ws[i])
  }

  lemma AllTailRest(t: string)
    requires t != [] && AllTail(t)
    ensures AllTail(t[1..])
  {
    assert forall k :: 0 <= k < |t| - 1 ==> t[1..][k] == t[k + 1];
  }

  lemma AllWordsRest(ws: seq<string>)
    requires ws != [] && AllWords(ws)
    ensures AllWords(ws[1..]) && IsWord(ws[0]) && AllTail(ws[0][1..])
  {
    assert forall i :: 0 <= i < |ws| - 1 ==> ws[1..][i] == ws[i + 1];
    AllTailWord(ws[0]);
  }

  lemma AllTailWord(w: string)
    requires IsWord(w)
    ensures w[1..] != [] && AllTail(w[1..])
  {
    assert forall k :: 0 <= k < |w| - 1 ==> w[1..][k] == w[k + 1];
  }

  /** A character that does not start a dash is copied. */
  lemma Pass1TailCons(t: string, c: string, d: string)
    requires |t| >= 2 && !(IsTail(t[0]) && IsUpper(t[1])) && Pass1(t[1..] + c) == t[1..] + d
    ensures Pass1(t + c) == t + d
  {
    var s := t + c;
    assert s[0] == t[0] && s[1] == t[1] && s[1..] == t[1..] + c;
    Pass1Keep(s);
    assert [t[0]] + (t[1..] + d) == t + d;
  }

  /** A last tail character followed by a capitalised word gets a dash after it. */
  lemma Pass1DashCons(x: char, w: string, c: string, d: string)
    requires IsTail(x) && w != [] && IsUpper(w[0]) && Pass1(w[1..] + c) == w[1..] + d
    ensures Pass1([x] + (w + c)) == [x] + ("-" + w + d)
  {
    var s := [x] + (w + c);
    assert s[0] == x && s[1] == w[0] && s[2..] == w[1..] + c;
    Pass1Dash(s);
    assert [x, '-', w[0]] + (w[1..] + d) == [x] + ("-" + w + d);
  }

  /** A single tail character is copied. */
  lemma Pass1Single(x: char)
    ensures Pass1([x]) == [x]
  {
    Pass1Keep([x]);
    assert [x][1..] == [];
  }

  /** A run of tail characters, then words: the first scan puts a `-` before each word. */
  lemma {:induction false} Pass1TailThenWords(t: string, ws: seq<string>)
    requires t != [] && AllTail(t) && AllWords(ws)
    ensures Pass1(t + Concat(ws)) == t + DashConcat(ws)
    decreases |ws|, |t|
  {
    if |t| >= 2 {
      AllTailRest(t);
      Pass1TailThenWords(t[1..], ws);
      Pass1TailCons(t, Concat(ws), DashConcat(ws));
    } else if ws == [] {
      assert t == [t[0]];
      Pass1Single(t[0]);
    } else {
      var w := ws[0];
      AllWordsRest(ws);
      Pass1TailThenWords(w[1..], ws[1..]);
      Pass1DashCons(t[0], w, Concat(ws[1..]), DashConcat(ws[1..]));
      assert t == [t[0]];
    }
  }

  /** On capitalised words the first scan puts a `-` between each two. */
  lemma Pass1Words(ws: seq<string>)
    requires |ws| >= 1 && AllWords(ws)
    ensures Pass1(Concat(ws)) == ws[0] + DashConcat(ws[1..])
  {
    var w := ws[0];
    AllWordsRest(ws);
    Pass1TailThenWords(w[1..], ws[1..]);
    Pass1TailCons(w, Concat(ws[1..]), DashConcat(ws[1..]));
  }

  /** The second scan passes over characters that are not capitals. */
  lemma {:induction false} Pass2Skip(p: string, rest: string)
    requires forall k :: 0 <= k < |p| ==> !IsUpper(p[k])
    ensures Pass2(p + rest) == p + Pass2(rest)
    decreases |p|
  {
    if p != [] {
      assert (p + rest)[0] == p[0];
      assert (p + rest)[1..] == p[1..] + rest;
      assert forall k :: 0 <= k < |p| - 1 ==> p[1..][k] == p[k + 1];
      Pass2Skip(p[1..], rest);
      assert p == [p[0]] + p[1..];
    } else {
      assert p + rest == rest;
    }
  }

  /** The second scan changes nothing in dash-separated capitalised words. */
  lemma {:induction false} Pass2Words(w: string, ws: seq<string>)
    requires IsWord(w) && AllWords(ws)
    ensures Pass2(w + DashConcat(ws)) == w + DashConcat(ws)
    decreases |ws|
  {
    var s := w + DashConcat(ws);
    assert s[1] == w[1];
    assert s[1..] == w[1..] + DashConcat(ws);
    Pass2Skip(w[1..], DashConcat(ws));
    assert w == [w[0]] + w[1..];
    if ws != [] {
      assert DashConcat(ws) == "-" + (ws[0] + DashConcat(ws[1..]));
      AllWordsRest(ws);
      Pass2Words(ws[0], ws[1..]);
      Pass2Skip("-", ws[0] + DashConcat(ws[1..]));
    }
  }

  lemma ToLowerConcat(a: string, b: string)
    ensures ToLower(a + b) == ToLower(a) + ToLower(b)
  {
  }

  /** A word, then the others each after a `-`, is the words joined with `-`. */
  lemma {:induction false} DashJoin(w: string, ws: seq<string>)
    ensures w + DashConcat(ws) == Join([w] + ws, '-')
    decreases |ws|
  {
    if ws == [] {
      assert w + DashConcat(ws) == w;
    } else {
      DashJoin(ws[0], ws[1..]);
      assert ([w] + ws)[1..] == [ws[0]] + ws[1..] == ws;
      assert w + DashConcat(ws) == w + ['-'] + (ws[0] + DashConcat(ws[1..]));
    }
  }

  /** The lower-cased pieces. */
  function LowerAll(ws: seq<string>): (r: seq<string>)
    ensures |r| == |ws| && forall k :: 0 <= k < |ws| ==> r[k] == ToLower(ws[k])
  {
    seq(|ws|, k requires 0 <= k < |ws| => ToLower(ws[k]))
  }

  /** Lower-casing a `-`-joined list lower-cases each piece. */
  lemma {:induction false} LowerJoin(ws: seq<string>)
    ensures ToLower(Join(ws, '-')) == Join(LowerAll(ws), '-')
  {
    if |ws| >= 2 {
      LowerJoin(ws[1..]);
      assert LowerAll(ws)[1..] == LowerAll(ws[1..]);
      ToLowerConcat(ws[0] + ['-'], Join(ws[1..], '-'));
      ToLowerConcat(ws[0], ['-']);
      assert ToLower(['-']) == ['-'];
    }
  }

  /**
   * The kebab name of capitalised words (such as `ArrowRight` or `Loader2`)
   * is the lower-cased words joined with `-`.
   */
  lemma KebabOfWords(ws: seq<string>)
    requires |ws| >= 1 && AllWords(ws)
    ensures ToKebabCase(Concat(ws)) == Join(LowerAll(ws), '-')
  {
    Pass1Words(ws);
    AllWordsRest(ws);
    Pass2Words(ws[0], ws[1..]);
    DashJoin(ws[0], ws[1..]);
    assert [ws[0]] + ws[1..] == ws;
    LowerJoin(ws);
  }

  /**
   * A capital before a capitalised word that goes on in lower case (the
   * `X` of `XCircle`) is split off by the second scan.
   */
  lemma KebabOfAcronym(c: char, w: string)
    requires IsUpper(c) && IsWord(w) && IsLower(w[1])
    ensures ToKebabCase([c] + w) == [LowerChar(c), '-'] + ToLower(w)
  {
    assert Pass2(Pass1([c] + w)) == [c, '-'] + w by {
      AcronymPass1(c, w);
      AcronymPass2(c, w);
      assert [c, '-', w[0], w[1]] + w[2..] == [c, '-'] + w;
    }
    assert ToLower([c, '-'] + w) == [LowerChar(c), '-'] + ToLower(w) by {
      ToLowerConcat([c, '-'], w);
      assert ToLower([c, '-']) == [LowerChar(c), '-'];
    }
  }

  lemma AcronymPass1(c: char, w: string)
    requires IsUpper(c) && IsWord(w)
    ensures Pass1([c] + w) == [c] + w
  {
    Pass1Words([w]);
    assert Concat([w]) == w;
    assert ([c] + w)[1..] == w;
  }

  lemma AcronymPass2(c: char, w: string)
    requires IsUpper(c) && IsWord(w) && IsLower(w[1])
    ensures Pass2([c] + w) == [c, '-', w[0], w[1]] + w[2..]
  {
    var s := [c] + w;
    assert s[3..] == w[2..];
    Pass2Skip(w[2..], "");
    assert w[2..] + "" == w[2..];
  }

  // ---------------------------------------------------------------- icon list

  /** The first index from `i` on that is not white space (or the end). */
  function WsEnd(s: string, i: nat): (j: nat)
    requires i <= |s|
    ensures i <= j <= |s| && (j == |s| || !IsSpace(s[j]))
    decreases |s| - i
  {
    if i < |s| && IsSpace(s[i]) then WsEnd(s, i + 1) else i
  }

  /** Everything `WsEnd` skips is white space. */
  lemma {:induction false} WsEndSkipsSpace(s: string, i: nat, k: nat)
    requires i <= |s| && i <= k < WsEnd(s, i)
    ensures IsSpace(s[k])
    decreases |s| - i
  {
    if k > i {
      WsEndSkipsSpace(s, i + 1, k);
    }
  }

  /**
   * Where a match of `/\s+as\s+/` that starts at `p` ends. Both runs of
   * white space are greedy, and backing off from the first one cannot
   * help, since `a` is not white space.
   */
  function AsSepAt(s: string, p: nat): (e: Option<nat>)
    requires p <= |s|
    ensures e.Some? ==> p + 4 <= e.value <= |s|
  {
    if p < |s| && IsSpace(s[p]) then
      var q := WsEnd(s, p);
      if q + 2 < |s| && s[q] == 'a' && s[q + 1] == 's' && IsSpace(s[q + 2]) then Some(WsEnd(s, q + 2)) else None
    else None
  }

  /** The leftmost match of the separator at or after `from`: its start and end. */
  function FirstAsSep(s: string, from: nat): (m: Option<(nat, nat)>)
    requires from <= |s|
    ensures m.Some? ==> from <= m.value.0 < |s| && AsSepAt(s, m.value.0) == Some(m.value.1)
    ensures m.Some? ==> forall p :: from <= p < m.value.0 ==> AsSepAt(s, p).None?
    ensures m.None? ==> forall p :: from <= p <= |s| ==> AsSepAt(s, p).None?
    decreases |s| - from
  {
    if from == |s| then None
    else
      match AsSepAt(s, from)
      case Some(e) => Some((from, e))
      case None => FirstAsSep(s, from + 1)
  }

  /** A white-space-free string holds no separator. */
  lemma NoSepWithoutSpace(s: string, from: nat)
    requires from <= |s| && forall k :: from <= k < |s| ==> !IsSpace(s[k])
    ensures FirstAsSep(s, from).None?
  {
  }

  /** An icon of the list: its name and, for `X as Y`, the alias. */
  datatype Icon = Icon(original: string, alias: Option<string>)

  /**
   * `const parts = icon.split(/\s+as\s+/)`, then `parts[0].trim()` and
   * `parts[1]?.trim()`: the text before the first separator, and the text
   * between the first and the second one (or the end), both trimmed.
   */
  function ParseIcon(icon: string): (r: Icon)
    ensures Trim(r.original) == r.original
    ensures r.alias.Some? ==> Trim(r.alias.value) == r.alias.value
    ensures FirstAsSep(icon, 0).None? <==> r.alias.None?
  {
    match FirstAsSep(icon, 0)
    case None =>
      TrimIdempotent(icon);
      Icon(Trim(icon), None)
    case Some(m) =>
      var second := match FirstAsSep(icon, m.1)
        case None => icon[m.1..]
        case Some(m2) => icon[m.1..m2.0];
      TrimIdempotent(icon[..m.0]);
      TrimIdempotent(second);
      Icon(Trim(icon[..m.0]), Some(Trim(second)))
  }

  /** The trimmed, non-empty pieces of the list, in order. */
  function Pieces(parts: seq<string>): (r: seq<string>)
    ensures |r| <= |parts|
    ensures forall k :: 0 <= k < |r| ==> r[k] != [] && !IsSpace(r[k][0]) && !IsSpace(r[k][|r[k]| - 1])
  {
    if parts == [] then []
    else
      var t := Trim(parts[0]);
      var rest := Pieces(parts[1..]);
      if t == [] then rest else [t] + rest
  }

  /** Trimming keeps out a character that none of the parts holds. */
  lemma {:induction false} PiecesKeepOut(parts: seq<string>, c: char)
    requires forall k :: 0 <= k < |parts| ==> c !in parts[k]
    ensures forall k :: 0 <= k < |Pieces(parts)| ==> c !in Pieces(parts)[k]
  {
    if parts != [] {
      assert forall k :: 1 <= k < |parts| ==> parts[1..][k - 1] == parts[k];
      PiecesKeepOut(parts[1..], c);
      TrimKeepsOut(parts[0], c);
    }
  }

  /**
   * `iconsString.split(',').map(trim).filter(nonEmpty).map(parse)`.
   */
  function ParseIcons(iconsString: string): (r: seq<Icon>)
    ensures |r| == |Pieces(Split(iconsString, ','))|
    ensures forall k :: 0 <= k < |r| ==> r[k] == ParseIcon(Pieces(Split(iconsString, ','))[k])
  {
    var pieces := Pieces(Split(iconsString, ','));
    seq(|pieces|, k requires 0 <= k < |pieces| => ParseIcon(pieces[k]))
  }

  /** A name without white space parses as itself, with no alias. */
  lemma ParseIconPlain(name: string)
    requires forall k :: 0 <= k < |name| ==> !IsSpace(name[k])
    ensures ParseIcon(name) == Icon(name, None)
  {
    NoSepWithoutSpace(name, 0);
    TrimOfTrimmed(name);
  }

  /** `X as Y` with single spaces parses into the name and the alias. */
  lemma ParseIconAlias(original: string, alias: string)
    requires original != [] && alias != []
    requires forall k :: 0 <= k < |original| ==> !IsSpace(original[k])
    requires forall k :: 0 <= k < |alias| ==> !IsSpace(alias[k])
    ensures ParseIcon(original + " as " + alias) == Icon(original, Some(alias))
  {
    var s := original + " as " + alias;
    var n := |original|;
    AliasSeparatorAt(original, alias);
    FirstAsSepIs(s, 0, n, n + 4);
    assert s[n + 4..] == alias && s[..n] == original;
    NoSepWithoutSpace(s, n + 4);
    ParseIconOfTwoParts(s, n, n + 4);
    TrimOfTrimmed(original);
    TrimOfTrimmed(alias);
  }

  /** In `X as Y`, with no white space in `X`, the first separator is the one after `X`. */
  lemma AliasSeparatorAt(original: string, alias: string)
    requires original != [] && alias != []
    requires forall k :: 0 <= k < |original| ==> !IsSpace(original[k])
    requires !IsSpace(alias[0])
    ensures var s := original + " as " + alias;
      && AsSepAt(s, |original|) == Some(|original| + 4)
      && forall p :: 0 <= p < |original| ==> AsSepAt(s, p).None?
  {
    var s := original + " as " + alias;
    var n := |original|;
    assert s[n] == ' ' && s[n + 1] == 'a' && s[n + 2] == 's' && s[n + 3] == ' ' && s[n + 4] == alias[0];
    assert WsEnd(s, n + 1) == n + 1;
    assert WsEnd(s, n) == n + 1;
    assert WsEnd(s, n + 4) == n + 4;
    assert WsEnd(s, n + 3) == n + 4;
    assert forall p :: 0 <= p < n ==> s[p] == original[p];
  }

  /** The separator at `p` with none before it is the first one. */
  lemma FirstAsSepIs(s: string, from: nat, p: nat, e: nat)
    requires from <= p <= |s| && AsSepAt(s, p) == Some(e)
    requires forall q :: from <= q < p ==> AsSepAt(s, q).None?
    ensures FirstAsSep(s, from) == Some((p, e))
  {
  }

  /** One separator and nothing after it: the text before it and the text after it. */
  lemma ParseIconOfTwoParts(s: string, m0: nat, m1: nat)
    requires m1 <= |s| && FirstAsSep(s, 0) == Some((m0, m1)) && FirstAsSep(s, m1).None?
    ensures ParseIcon(s) == Icon(Trim(s[..m0]), Some(Trim(s[m1..])))
  {
  }

  /** The name an import line brings in: `X as Y` when there is an alias. */
  function ImportName(icon: Icon): (r: string)
    ensures icon.alias.Some? && icon.alias.value != "" ==> r == icon.original + " as " + icon.alias.value
    ensures icon.alias.None? || icon.alias.value == "" ==> r == icon.original
  {
    if icon.alias.Some? && icon.alias.value != "" then icon.original + " as " + icon.alias.value else icon.original
  }

  /**
   * The name written into the import reads back as the same icon, for names
   * and aliases without white space.
   */
  lemma ImportNameReparses(icon: Icon)
    requires icon.original != [] && forall k :: 0 <= k < |icon.original| ==> !IsSpace(icon.original[k])
    requires icon.alias.Some? ==> icon.alias.value != [] && forall k :: 0 <= k < |icon.alias.value| ==> !IsSpace(icon.alias.value[k])
    ensures ParseIcon(ImportName(icon)) == icon
  {
    if icon.alias.Some? {
      ParseIconAlias(icon.original, icon.alias.value);
    } else {
      ParseIconPlain(icon.original);
    }
  }

  /** Trimmed non-empty names without `,` are their own pieces. */
  lemma {:induction false} PiecesOfNames(names: seq<string>)
    requires forall k :: 0 <= k < |names| ==> names[k] != [] && !IsSpace(names[k][0]) && !IsSpace(names[k][|names[k]| - 1])
    ensures Pieces(names) == names
  {
    if names != [] {
      assert Trim(names[0]) == names[0] by {
        TrimOfTrimmed(names[0]);
      }
      assert forall k :: 1 <= k < |names| ==> names[1..][k - 1] == names[k];
      PiecesOfNames(names[1..]);
    }
  }

  /** A comma-separated list of plain names parses into those icons, in order. */
  lemma ParseIconsOfNames(names: seq<string>)
    requires |names| >= 1
    requires forall k :: 0 <= k < |names| ==> names[k] != [] && ',' !in names[k]
    requires forall k, j :: 0 <= k < |names| && 0 <= j < |names[k]| ==> !IsSpace(names[k][j])
    ensures ParseIcons(Join(names, ',')) == seq(|names|, k requires 0 <= k < |names| => Icon(names[k], None))
  {
    SplitJoin(names, ',');
    PiecesOfNames(names);
    forall k | 0 <= k < |names| ensures ParseIcon(names[k]) == Icon(names[k], None) {
      ParseIconPlain(names[k]);
    }
  }

  /** A trimmed piece without `,` gives a non-empty name, and no `,` in name or alias. */
  lemma ParseIconClean(piece: string)
    requires piece != [] && !IsSpace(piece[0]) && !IsSpace(piece[|piece| - 1]) && ',' !in piece
    ensures var icon := ParseIcon(piece);
      && icon.original != [] && ',' !in icon.original
      && (icon.alias.Some? ==> ',' !in icon.alias.value)
  {
    match FirstAsSep(piece, 0)
    case None =>
      TrimOfTrimmed(piece);
    case Some(m) =>
      var head := piece[..m.0];
      assert m.0 > 0 && head[0] == piece[0];
      assert !AllSpace(head);
      assert ',' !in head;
      TrimKeepsOut(head, ',');
      match FirstAsSep(piece, m.1)
      case None =>
        assert ',' !in piece[m.1..];
        TrimKeepsOut(piece[m.1..], ',');
      case Some(m2) =>
        assert ',' !in piece[m.1..m2.0];
        TrimKeepsOut(piece[m.1..m2.0], ',');
  }

  /** Every parsed icon has a non-empty name; neither name nor alias holds a `,`. */
  lemma ParsedIconsClean(iconsString: string, k: nat)
    requires k < |ParseIcons(iconsString)|
    ensures var icon := ParseIcons(iconsString)[k];
      && icon.original != [] && ',' !in icon.original
      && (icon.alias.Some? ==> ',' !in icon.alias.value)
  {
    var parts := Split(iconsString, ',');
    PiecesKeepOut(parts, ',');
    ParseIconClean(Pieces(parts)[k]);
  }

  // ---------------------------------------------------------------- direct imports

  const IconsPath := "lucide-react/dist/esm/icons/"

  const ImportOpen := "import { "
  const ImportFrom := " } from \""

  /** The direct import of one icon. */
  function DirectImport(icon: Icon): (line: string)
    ensures StartsWith(line, ImportOpen + ImportName(icon) + ImportFrom)
    ensures EndsWith(line, IconsPath + ToKebabCase(icon.original) + "\"")
  {
    var head := ImportOpen + ImportName(icon) + ImportFrom;
    var tail := IconsPath + ToKebabCase(icon.original) + "\"";
    var line := head + tail;
    assert line[..|head|] == head;
    assert line[|head|..] == tail;
    line
  }

  /** `directImports`: the imports of the icons, one per line. */
  function DirectImports(icons: seq<Icon>): string {
    Join(seq(|icons|, k requires 0 <= k < |icons| => DirectImport(icons[k])), '\n')
  }

  /** A direct import is a single line when the names hold no line break. */
  lemma DirectImportOneLine(icon: Icon)
    requires '\n' !in icon.original && (icon.alias.Some? ==> '\n' !in icon.alias.value)
    ensures '\n' !in DirectImport(icon)
  {
    KebabKeepsOut(icon.original, '\n');
    assert '\n' !in ImportName(icon);
    assert '\n' !in ImportOpen && '\n' !in ImportFrom && '\n' !in IconsPath && '\n' !in "\"";
    var head := ImportOpen + ImportName(icon) + ImportFrom;
    var tail := IconsPath + ToKebabCase(icon.original) + "\"";
    assert DirectImport(icon) == head + tail;
  }

  /**
   * Exactly one import line per icon, in order, each bringing in the icon
   * under its alias from the kebab-named module.
   */
  lemma OneImportPerIcon(icons: seq<Icon>)
    requires |icons| >= 1
    requires forall k :: 0 <= k < |icons| ==> '\n' !in icons[k].original
    requires forall k :: 0 <= k < |icons| ==> icons[k].alias.Some? ==> '\n' !in icons[k].alias.value
    ensures |Split(DirectImports(icons), '\n')| == |icons|
    ensures forall k :: 0 <= k < |icons| ==> Split(DirectImports(icons), '\n')[k] == DirectImport(icons[k])
  {
    var lines := seq(|icons|, k requires 0 <= k < |icons| => DirectImport(icons[k]));
    forall k | 0 <= k < |icons| ensures '\n' !in lines[k] {
      DirectImportOneLine(icons[k]);
    }
    SplitJoin(lines, '\n');
  }

  // ---------------------------------------------------------------- processFile

  /** The quote characters `["']`. */
  predicate IsQuote(c: char) { c == '"' || c == '\'' }

  /**
   * The words of the import pattern: the keyword that opens it, the one
   * before the module name, and the module name itself. The scanner is
   * written for any such words; the script's are `LucideImport`.
   */
  datatype Pattern = Pattern(opener: string, joiner: string, barrel: string)

  const LucideImport := Pattern("import", "from", "lucide-react")

  /** The word `w` stands in `s` at `i`, checked one character at a time. */
  predicate WordAt(s: string, i: nat, w: string)
    decreases |w|
  {
    if w == [] then i <= |s| else i < |s| && s[i] == w[0] && WordAt(s, i + 1, w[1..])
  }

  /** A word that stands at `i` fits in the string and occurs there. */
  lemma {:induction false} WordAtOccurs(s: string, i: nat, w: string)
    requires WordAt(s, i, w)
    ensures i + |w| <= |s| && OccursAt(s, w, i)
    decreases |w|
  {
    if w != [] {
      WordAtOccurs(s, i + 1, w[1..]);
      assert s[i + 1..i + |w|] == w[1..];
      assert forall k :: 0 <= k < |w| ==> s[i..i + |w|][k] == w[k];
    }
  }

  /** The first `}` from `i` on, or the end of the text. */
  function UntilBrace(s: string, i: nat): (j: nat)
    requires i <= |s|
    ensures i <= j <= |s| && (j < |s| ==> s[j] == '}')
    decreases |s| - i
  {
    if i == |s| || s[i] == '}' then i else UntilBrace(s, i + 1)
  }

  /** Nothing `UntilBrace` passes over is a `}`. */
  lemma {:induction false} UntilBraceSkips(s: string, i: nat, k: nat)
    requires i <= k < |s| && k < UntilBrace(s, i)
    ensures s[k] != '}'
    decreases |s| - i
  {
    if k > i {
      UntilBraceSkips(s, i + 1, k);
    }
  }

  /** A stretch of the text, from `lo` up to `hi`, or none. */
  datatype Span = NoSpan | Span(lo: nat, hi: nat)

  /**
   * The group `\s*([^}]+)\s*}` after the `{` at `b`: where the captured text
   * starts, and the index of the `}` that closes it. The group runs from
   * the first non-space after `{` to the first `}`; when only white space
   * stands between `{` and `}`, the engine backs off one space so that the
   * group still holds a character.
   */
  function GroupAfter(s: string, b: nat): (r: Span)
    requires b < |s|
    ensures r.Span? ==> b < r.lo < r.hi < |s| && s[r.hi] == '}'
  {
    var c := WsEnd(s, b + 1);
    if c == |s| || (s[c] == '}' && c == b + 1) then NoSpan
    else
      var e := UntilBrace(s, c);
      if e == |s| then NoSpan
      else if s[c] == '}' then Span(c - 1, c)
      else Span(c, e)
  }

  /** The captured text holds no `}`. */
  lemma GroupAfterClean(s: string, b: nat)
    requires b < |s| && GroupAfter(s, b).Span?
    ensures '}' !in s[GroupAfter(s, b).lo..GroupAfter(s, b).hi]
  {
    var c := WsEnd(s, b + 1);
    var r := GroupAfter(s, b);
    if s[c] == '}' {
      WsEndSkipsSpace(s, b + 1, c - 1);
      assert s[r.lo..r.hi] == [s[c - 1]];
    } else {
      forall k | r.lo <= k < r.hi ensures s[k] != '}' {
        UntilBraceSkips(s, c, k);
      }
    }
  }

  /** `\s*from\s*["']lucide-react["']` after the `}` at `e`: where it ends. */
  function FromBarrelAfter(s: string, e: nat, pat: Pattern): (r: Option<nat>)
    requires e < |s|
    ensures r.Some? ==> e + 3 + |pat.joiner| + |pat.barrel| <= r.value <= |s|
    ensures r.Some? ==> WordAt(s, r.value - |pat.barrel| - 1, pat.barrel) && IsQuote(s[r.value - 1])
  {
    var f := WsEnd(s, e + 1);
    if f + |pat.joiner| > |s| || !WordAt(s, f, pat.joiner) then None
    else
      var q := WsEnd(s, f + |pat.joiner|);
      if q + |pat.barrel| + 2 <= |s| && IsQuote(s[q]) && WordAt(s, q + 1, pat.barrel) && IsQuote(s[q + |pat.barrel| + 1]) then
        Some(q + |pat.barrel| + 2)
      else None
  }

  /** The rest of a match after `import`, from `i` on: where it ends, and the group. */
  function BracesAfter(s: string, i: nat, pat: Pattern): (m: Scan)
    requires i <= |s|
    ensures m.Hit? ==> i + 5 + |pat.joiner| + |pat.barrel| <= m.end <= |s|
    ensures m.Hit? ==> WordAt(s, m.end - |pat.barrel| - 1, pat.barrel) && IsQuote(s[m.end - 1])
    ensures m.Hit? ==> m.group != []
  {
    var b := WsEnd(s, i);
    if b == |s| || s[b] != '{' then Miss
    else
      match GroupAfter(s, b)
      case NoSpan => Miss
      case Span(lo, hi) =>
        match FromBarrelAfter(s, hi, pat)
        case None => Miss
        case Some(end) => Hit(end, s[lo..hi])
  }

  /**
   * A match of `/import\s*{\s*([^}]+)\s*}\s*from\s*["']lucide-react["']/`
   * (with the words of `pat`) starting at `p`: where it ends, and the
   * captured icon list.
   */
  function ImportAt(s: string, p: nat, pat: Pattern): (m: Scan)
    requires p <= |s|
    ensures m.Hit? ==> p + |pat.opener| + 5 + |pat.joiner| + |pat.barrel| <= m.end <= |s|
    ensures m.Hit? ==> WordAt(s, p, pat.opener) && WordAt(s, m.end - |pat.barrel| - 1, pat.barrel)
    ensures m.Hit? ==> IsQuote(s[m.end - 1]) && m.group != []
  {
    if p + |pat.opener| <= |s| && WordAt(s, p, pat.opener) then BracesAfter(s, p + |pat.opener|, pat) else Miss
  }

  /** A scan at one position: no match there, or where the match ends and the group it captured. */
  datatype Scan = Miss | Hit(end: nat, group: string)

  /** The icon list a match captures holds no `}`. */
  lemma HitGroupHasNoBrace(s: string, p: nat, pat: Pattern)
    requires p <= |s| && ImportAt(s, p, pat).Hit?
    ensures '}' !in ImportAt(s, p, pat).group
  {
    GroupAfterClean(s, WsEnd(s, p + |pat.opener|));
  }

  /** A match: where it starts and ends in the file, and the icon list it captured. */
  datatype ImportMatch = ImportMatch(start: nat, end: nat, group: string)

  /** `importRegex.exec(content)` with `lastIndex` at `from`: the leftmost match from there. */
  function FirstImport(s: string, from: nat, pat: Pattern): (m: Option<ImportMatch>)
    requires from <= |s|
    ensures m.Some? ==> from <= m.value.start < m.value.end <= |s|
    ensures m.Some? ==> ImportAt(s, m.value.start, pat) == Hit(m.value.end, m.value.group)
    decreases |s| - from
  {
    var here := ImportAt(s, from, pat);
    if here.Hit? then Some(ImportMatch(from, here.end, here.group))
    else if from == |s| then None
    else FirstImport(s, from + 1, pat)
  }

  /** The match `exec` returns is the leftmost: none starts earlier, and none at all when it finds none. */
  lemma {:induction false} FirstImportLeftmost(s: string, from: nat, pat: Pattern, p: nat)
    requires from <= p <= |s|
    requires FirstImport(s, from, pat).Some? ==> p < FirstImport(s, from, pat).value.start
    ensures ImportAt(s, p, pat).Miss?
    decreases |s| - from
  {
    var here := ImportAt(s, from, pat);
    if here.Miss? && p > from {
      assert FirstImport(s, from, pat) == FirstImport(s, from + 1, pat);
      FirstImportLeftmost(s, from + 1, pat, p);
    }
  }

  /** The matches the `exec` loop finds, in order, with `lastIndex` starting at `from`. */
  function MatchesFrom(s: string, from: nat, pat: Pattern): seq<ImportMatch>
    requires from <= |s|
    decreases |s| - from
  {
    match FirstImport(s, from, pat)
    case None => []
    case Some(m) => [m] + MatchesFrom(s, m.end, pat)
  }

  /** The first match is the one `exec` finds, and the rest are found from its end on. */
  lemma MatchesStep(s: string, from: nat, pat: Pattern)
    requires from <= |s| && MatchesFrom(s, from, pat) != []
    ensures FirstImport(s, from, pat).Some?
    ensures var m := FirstImport(s, from, pat).value;
      && MatchesFrom(s, from, pat)[0] == m
      && MatchesFrom(s, from, pat)[1..] == MatchesFrom(s, m.end, pat)
  {
  }

  /** Each found match is a match of the pattern at its start. */
  lemma {:induction false} MatchesAreImports(s: string, from: nat, pat: Pattern, k: nat)
    requires from <= |s| && k < |MatchesFrom(s, from, pat)|
    ensures MatchesFrom(s, from, pat)[k].start <= |s|
    ensures var m := MatchesFrom(s, from, pat)[k];
      ImportAt(s, m.start, pat) == Hit(m.end, m.group)
    decreases |s| - from
  {
    MatchesStep(s, from, pat);
    if k > 0 {
      var m := FirstImport(s, from, pat).value;
      assert MatchesFrom(s, from, pat)[k] == MatchesFrom(s, m.end, pat)[k - 1];
      MatchesAreImports(s, m.end, pat, k - 1);
    }
  }

  /** The found matches lie after `from`, within the text, each ending before the next starts. */
  lemma {:induction false} MatchesInOrder(s: string, from: nat, pat: Pattern, k: nat)
    requires from <= |s| && k < |MatchesFrom(s, from, pat)|
    ensures var m := MatchesFrom(s, from, pat)[k];
      from <= m.start < m.end <= |s|
    ensures k + 1 < |MatchesFrom(s, from, pat)| ==> MatchesFrom(s, from, pat)[k].end <= MatchesFrom(s, from, pat)[k + 1].start
    decreases |s| - from
  {
    MatchesStep(s, from, pat);
    var m := FirstImport(s, from, pat).value;
    var rest := MatchesFrom(s, m.end, pat);
    if k == 0 {
      if 1 < |MatchesFrom(s, from, pat)| {
        assert MatchesFrom(s, from, pat)[1] == rest[0];
        MatchesInOrder(s, m.end, pat, 0);
      }
    } else {
      assert MatchesFrom(s, from, pat)[k] == rest[k - 1];
      assert k + 1 < |MatchesFrom(s, from, pat)| ==> MatchesFrom(s, from, pat)[k + 1] == rest[k];
      MatchesInOrder(s, m.end, pat, k - 1);
    }
  }

  /** The text between `lastIndex` and a found match holds no match: `exec` skips nothing. */
  lemma {:induction false} NoMatchBetween(s: string, from: nat, pat: Pattern, p: nat)
    requires from <= p <= |s|
    requires forall k :: 0 <= k < |MatchesFrom(s, from, pat)| ==> MatchesFrom(s, from, pat)[k].start != p
    requires forall k :: 0 <= k < |MatchesFrom(s, from, pat)| ==> !(MatchesFrom(s, from, pat)[k].start < p < MatchesFrom(s, from, pat)[k].end)
    ensures ImportAt(s, p, pat).Miss?
    decreases |s| - from
  {
    var ms := MatchesFrom(s, from, pat);
    if ms == [] {
      FirstImportLeftmost(s, from, pat, p);
    } else {
      MatchesStep(s, from, pat);
      var m := ms[0];
      assert ms[0].start != p && !(ms[0].start < p < ms[0].end);
      if p < m.start {
        FirstImportLeftmost(s, from, pat, p);
      } else {
        var rest := ms[1..];
        assert forall k :: 0 <= k < |rest| ==> rest[k] == ms[k + 1];
        NoMatchBetween(s, m.end, pat, p);
      }
    }
  }

  /** One pushed replacement: the import as written, and its direct imports. */
  datatype Replacement = Replacement(original: string, replacement: string)

  /** Every match lies within the text. */
  predicate WithinText(s: string, ms: seq<ImportMatch>) {
    forall k :: 0 <= k < |ms| ==> ms[k].start <= ms[k].end <= |s|
  }

  lemma MatchesWithinText(s: string, from: nat, pat: Pattern)
    requires from <= |s|
    ensures WithinText(s, MatchesFrom(s, from, pat))
  {
    forall k | 0 <= k < |MatchesFrom(s, from, pat)|
      ensures MatchesFrom(s, from, pat)[k].start <= MatchesFrom(s, from, pat)[k].end <= |s|
    {
      MatchesInOrder(s, from, pat, k);
    }
  }

  /** The replacement pushed for one match. */
  function ReplacementFor(s: string, m: ImportMatch): (r: Replacement)
    requires m.start <= m.end <= |s|
    ensures r.original == s[m.start..m.end]
  {
    Replacement(s[m.start..m.end], DirectImports(ParseIcons(m.group)))
  }

  /** The replacements pushed for the matches, in order. */
  function Plan(s: string, ms: seq<ImportMatch>): (rs: seq<Replacement>)
    requires WithinText(s, ms)
    ensures |rs| == |ms|
  {
    if ms == [] then []
    else Plan(s, ms[..|ms| - 1]) + [ReplacementFor(s, ms[|ms| - 1])]
  }

  /** Each planned replacement is the one for the match at the same place. */
  lemma {:induction false} PlanAt(s: string, ms: seq<ImportMatch>, k: nat)
    requires WithinText(s, ms) && k < |ms|
    ensures Plan(s, ms)[k] == ReplacementFor(s, ms[k])
    decreases |ms|
  {
    if k < |ms| - 1 {
      PlanAt(s, ms[..|ms| - 1], k);
    }
  }

  /** Each replacement in turn, as `newContent.replace(original, replacement)`. */
  function ApplyAll(content: string, rs: seq<Replacement>): string {
    if rs == [] then content
    else
      var last := rs[|rs| - 1];
      ReplaceFirst(ApplyAll(content, rs[..|rs| - 1]), last.original, last.replacement)
  }

  /** The new content of a file: unchanged when it holds no barrel import. */
  function Rewrite(content: string): (r: string)
    ensures MatchesFrom(content, 0, LucideImport) == [] ==> r == content
  {
    MatchesWithinText(content, 0, LucideImport);
    ApplyAll(content, Plan(content, MatchesFrom(content, 0, LucideImport)))
  }

  /** The text of a barrel import: `import` first, then the module name in quotes at the end. */
  predicate IsBarrelImport(r: string, pat: Pattern) {
    |r| >= |pat.barrel| + 1 && OccursAt(r, pat.opener, 0)
    && OccursAt(r, pat.barrel, |r| - |pat.barrel| - 1) && IsQuote(r[|r| - 1])
  }

  /** An occurrence inside a slice is an occurrence in the slice. */
  lemma OccursInSlice(s: string, p: string, lo: nat, hi: nat, i: nat)
    requires lo <= i && i + |p| <= hi <= |s| && OccursAt(s, p, i)
    ensures OccursAt(s[lo..hi], p, i - lo)
  {
    var t := s[lo..hi];
    assert forall k :: 0 <= k < |p| ==> t[i - lo + k] == s[i + k] == p[k];
    assert t[i - lo..i - lo + |p|] == p;
  }

  /** A span that opens with the keyword and closes with the quoted module name is a barrel import. */
  lemma SpanIsBarrelImport(s: string, lo: nat, hi: nat, pat: Pattern)
    requires lo + |pat.opener| + |pat.barrel| + 1 <= hi <= |s|
    requires WordAt(s, lo, pat.opener) && WordAt(s, hi - |pat.barrel| - 1, pat.barrel) && IsQuote(s[hi - 1])
    ensures IsBarrelImport(s[lo..hi], pat)
  {
    var r := s[lo..hi];
    var b := hi - |pat.barrel| - 1;
    WordAtOccurs(s, lo, pat.opener);
    WordAtOccurs(s, b, pat.barrel);
    OccursInSlice(s, pat.opener, lo, hi, lo);
    OccursInSlice(s, pat.barrel, lo, hi, b);
    assert |r| == hi - lo && b - lo == |r| - |pat.barrel| - 1;
    assert r[|r| - 1] == s[hi - 1];
  }

  /** The text a match spans is a barrel import. */
  lemma MatchIsBarrelImport(s: string, m: ImportMatch, pat: Pattern)
    requires m.start <= |s| && ImportAt(s, m.start, pat) == Hit(m.end, m.group)
    ensures IsBarrelImport(s[m.start..m.end], pat)
  {
    SpanIsBarrelImport(s, m.start, m.end, pat);
  }

  /** Every pushed replacement replaces a barrel import. */
  lemma PlanEntriesAreBarrelImports(content: string, pat: Pattern, k: nat)
    requires k < |MatchesFrom(content, 0, pat)|
    ensures WithinText(content, MatchesFrom(content, 0, pat))
    ensures IsBarrelImport(Plan(content, MatchesFrom(content, 0, pat))[k].original, pat)
  {
    var ms := MatchesFrom(content, 0, pat);
    MatchesWithinText(content, 0, pat);
    MatchesAreImports(content, 0, pat, k);
    PlanAt(content, ms, k);
    MatchIsBarrelImport(content, ms[k], pat);
  }

  /** Without the module name there is no match from anywhere. */
  lemma NoBarrelNoMatch(s: string, from: nat, pat: Pattern)
    requires from <= |s| && !Contains(s, pat.barrel)
    ensures MatchesFrom(s, from, pat) == []
  {
    var m := FirstImport(s, from, pat);
    if m.Some? {
      HitNamesBarrel(s, m.value.start, pat);
      assert false;
    }
  }

  /** A match names the module. */
  lemma HitNamesBarrel(s: string, p: nat, pat: Pattern)
    requires p <= |s| && ImportAt(s, p, pat).Hit?
    ensures Contains(s, pat.barrel)
  {
    var e := ImportAt(s, p, pat).end - |pat.barrel| - 1;
    WordAtOccurs(s, e, pat.barrel);
  }

  /** A file that never names `lucide-react` is left as it is. */
  lemma NoBarrelUntouched(content: string)
    requires !Contains(content, LucideImport.barrel)
    ensures Rewrite(content) == content
  {
    NoBarrelNoMatch(content, 0, LucideImport);
  }

  /** One match more adds its replacement at the end of the plan. */
  lemma PlanAppend(s: string, ms: seq<ImportMatch>, m: ImportMatch)
    requires WithinText(s, ms) && m.start <= m.end <= |s|
    ensures WithinText(s, ms + [m])
    ensures Plan(s, ms + [m]) == Plan(s, ms) + [ReplacementFor(s, m)]
  {
    assert (ms + [m])[..|ms|] == ms;
  }

  /** Applying one replacement more is one `replace` more. */
  lemma ApplyAllStep(content: string, rs: seq<Replacement>, k: nat)
    requires k < |rs|
    ensures ApplyAll(content, rs[..k + 1]) == ReplaceFirst(ApplyAll(content, rs[..k]), rs[k].original, rs[k].replacement)
  {
    assert rs[..k + 1][..k] == rs[..k];
  }

  // ---------------------------------------------------------------- processFile

  /** A path as its segments, which `path.join` would join with `/`. */
  type Path = seq<string>

  /** The source files the script reads and writes, by path. */
  class Project {
    var files: map<Path, string>

    constructor (contents: map<Path, string>)
      ensures files == contents
    {
      files := contents;
    }

    /**
     * `processFile(filePath)`: rewrites the file's barrel imports and
     * writes the file back only when its text changed. The result says
     * whether it did.
     */
    method ProcessFile(filePath: Path) returns (changed: bool)
      requires filePath in files
      modifies this
      ensures changed <==> Rewrite(old(files)[filePath]) != old(files)[filePath]
      ensures files == if changed then old(files)[filePath := Rewrite(old(files)[filePath])] else old(files)
    {
      var content := files[filePath];
      var replacements := CollectReplacements(content);
      var newContent := ApplyReplacements(content, replacements);
      if newContent != content {
        files := files[filePath := newContent];
        changed := true;
      } else {
        changed := false;
      }
    }
  }

  /**
   * The `exec` loop of `processFile`: one replacement per barrel import,
   * in the order found, each search resuming where the last match ended.
   */
  method CollectReplacements(content: string) returns (replacements: seq<Replacement>)
    ensures WithinText(content, MatchesFrom(content, 0, LucideImport))
    ensures replacements == Plan(content, MatchesFrom(content, 0, LucideImport))
  {
    replacements := [];
    var lastIndex := 0;
    ghost var found: seq<ImportMatch> := [];
    var m := FirstImport(content, lastIndex, LucideImport);
    while m.Some?
      invariant lastIndex <= |content|
      invariant m == FirstImport(content, lastIndex, LucideImport)
      invariant found + MatchesFrom(content, lastIndex, LucideImport) == MatchesFrom(content, 0, LucideImport)
      invariant WithinText(content, found)
      invariant replacements == Plan(content, found)
      decreases |content| - lastIndex
    {
      var fullImport := content[m.value.start..m.value.end];
      var icons := ParseIcons(m.value.group);
      var directImports := DirectImports(icons);
      replacements := replacements + [Replacement(fullImport, directImports)];
      CollectStep(content, lastIndex, found, m.value);
      found := found + [m.value];
      lastIndex := m.value.end;
      m := FirstImport(content, lastIndex, LucideImport);
    }
    assert found == MatchesFrom(content, 0, LucideImport);
  }

  /** One turn of the `exec` loop keeps the matches and the plan in step. */
  lemma CollectStep(content: string, lastIndex: nat, found: seq<ImportMatch>, m: ImportMatch)
    requires lastIndex <= |content| && FirstImport(content, lastIndex, LucideImport) == Some(m)
    requires found + MatchesFrom(content, lastIndex, LucideImport) == MatchesFrom(content, 0, LucideImport)
    requires WithinText(content, found)
    ensures m.start < m.end <= |content| && WithinText(content, found + [m])
    ensures found + [m] + MatchesFrom(content, m.end, LucideImport) == MatchesFrom(content, 0, LucideImport)
    ensures Plan(content, found + [m])
         == Plan(content, found) + [Replacement(content[m.start..m.end], DirectImports(ParseIcons(m.group)))]
  {
    FoundStep(content, lastIndex, found, m, LucideImport);
    PlanAppend(content, found, m);
  }

  /** The match `exec` returns is the next of the matches still to find. */
  lemma FoundStep(content: string, lastIndex: nat, found: seq<ImportMatch>, m: ImportMatch, pat: Pattern)
    requires lastIndex <= |content| && FirstImport(content, lastIndex, pat) == Some(m)
    ensures found + [m] + MatchesFrom(content, m.end, pat) == found + MatchesFrom(content, lastIndex, pat)
  {
    assert MatchesFrom(content, lastIndex, pat) == [m] + MatchesFrom(content, m.end, pat);
  }

  /** The replacement loop of `processFile`: each `replace` in turn on the text so far. */
  method ApplyReplacements(content: string, replacements: seq<Replacement>) returns (newContent: string)
    ensures newContent == ApplyAll(content, replacements)
  {
    newContent := content;
    for k := 0 to |replacements|
      invariant newContent == ApplyAll(content, replacements[..k])
    {
      ApplyAllStep(content, replacements, k);
      newContent := ReplaceFirst(newContent, replacements[k].original, replacements[k].replacement);
    }
    assert replacements[..|replacements|] == replacements;
  }

  // ---------------------------------------------------------------- findFiles

  /** What `readdirSync` and `statSync` report: a file, or a directory with its entries. */
  datatype Entry = FileEntry(name: string) | DirEntry(name: string, children: seq<Entry>)

  /** The directories the walk does not enter. */
  const SkippedDirs := ["node_modules", ".next", ".git", "dist"]

  /** `file.endsWith('.ts') || file.endsWith('.tsx')`. */
  predicate IsSource(name: string) {
    EndsWith(name, ".ts") || EndsWith(name, ".tsx")
  }

  /** A path found under `dir`: below it, through no skipped directory, to a source file. */
  predicate Listed(dir: Path, p: Path) {
    |p| > |dir| && p[..|dir|] == dir && IsSource(p[|p| - 1])
    && forall i :: |dir| <= i < |p| - 1 ==> p[i] !in SkippedDirs
  }

  /** The paths `findFiles(dir)` pushes for a directory listing, in the order pushed. */
  function Files(dir: Path, entries: seq<Entry>): (r: seq<Path>)
    ensures forall p :: p in r ==> Listed(dir, p)
    decreases entries
  {
    if entries == [] then []
    else Files(dir, entries[..|entries| - 1]) + EntryFiles(dir, entries[|entries| - 1])
  }

  /** The paths `findFiles` pushes for one entry of `dir`. */
  function EntryFiles(dir: Path, e: Entry): (r: seq<Path>)
    ensures forall p :: p in r ==> Listed(dir, p)
    decreases e
  {
    match e
    case FileEntry(name) => if IsSource(name) then [dir + [name]] else []
    case DirEntry(name, children) =>
      if name in SkippedDirs then []
      else
        var r := Files(dir + [name], children);
        assert forall p :: p in r ==> p[..|dir|] == p[..|dir| + 1][..|dir|];
        r
  }

  /**
   * `findFiles(dir, fileList)` over the listing of `dir`: the paths found
   * are pushed after those already in `fileList`.
   */
  method FindFiles(dir: Path, entries: seq<Entry>, fileList: seq<Path>) returns (result: seq<Path>)
    ensures result == fileList + Files(dir, entries)
    decreases entries
  {
    result := fileList;
    for k := 0 to |entries|
      invariant result == fileList + Files(dir, entries[..k])
    {
      assert entries[..k + 1][..k] == entries[..k];
      var file := entries[k];
      var filePath := dir + [file.name];
      match file
      case DirEntry(name, children) =>
        if name !in SkippedDirs {
          result := FindFiles(filePath, children, result);
        }
      case FileEntry(name) =>
        if IsSource(name) {
          result := result + [filePath];
        }
    }
    assert entries[..|entries|] == entries;
  }

  /** A path to a file through the directory entries, one segment per level. */
  predicate InTree(entries: seq<Entry>, rel: Path)
    decreases entries
  {
    exists k :: 0 <= k < |entries| && EntryHolds(entries[k], rel)
  }

  predicate EntryHolds(e: Entry, rel: Path)
    decreases e
  {
    match e
    case FileEntry(name) => rel == [name]
    case DirEntry(name, children) => |rel| > 1 && rel[0] == name && InTree(children, rel[1..])
  }

  /** Whatever one entry contributes is among the paths for the whole listing. */
  lemma {:induction false} EntryFilesInFiles(dir: Path, entries: seq<Entry>, k: nat, p: Path)
    requires k < |entries| && p in EntryFiles(dir, entries[k])
    ensures p in Files(dir, entries)
    decreases |entries|
  {
    if k < |entries| - 1 {
      assert entries[..|entries| - 1][k] == entries[k];
      EntryFilesInFiles(dir, entries[..|entries| - 1], k, p);
    }
  }

  /**
   * The walk misses nothing: every source file reached through no
   * skipped directory is listed.
   */
  lemma {:induction false} FilesComplete(dir: Path, entries: seq<Entry>, rel: Path)
    requires InTree(entries, rel) && |rel| > 0 && IsSource(rel[|rel| - 1])
    requires forall i :: 0 <= i < |rel| - 1 ==> rel[i] !in SkippedDirs
    ensures dir + rel in Files(dir, entries)
    decreases entries
  {
    var k :| 0 <= k < |entries| && EntryHolds(entries[k], rel);
    EntryComplete(dir, entries[k], rel);
    EntryFilesInFiles(dir, entries, k, dir + rel);
  }

  lemma {:induction false} EntryComplete(dir: Path, e: Entry, rel: Path)
    requires EntryHolds(e, rel) && |rel| > 0 && IsSource(rel[|rel| - 1])
    requires forall i :: 0 <= i < |rel| - 1 ==> rel[i] !in SkippedDirs
    ensures dir + rel in EntryFiles(dir, e)
    decreases e
  {
    match e
    case FileEntry(name) =>
    case DirEntry(name, children) =>
      var tail := rel[1..];
      assert rel[0] !in SkippedDirs;
      assert forall i :: 0 <= i < |tail| - 1 ==> tail[i] == rel[i + 1];
      FilesComplete(dir + [name], children, tail);
      assert dir + [name] + tail == dir + rel;
  }
}
