/**
 * `fix_cursor.py`: rewrite `public/shuttlecock-cursor.svg` in place.  Line
 * index 1 (the `<svg ...>` tag) has every `width="100%"` replaced by a fixed
 * pixel size, the nine lines at indices 2..10 (a background path) are dropped
 * whatever they contain, and the result overwrites the same file.
 *
 * A file is modelled as the sequence of lines `readlines` returns (each line
 * keeps its terminator), so `writelines` writes back exactly that sequence.
 */
module FixCursor {
  import opened Strings
  import opened Wrappers

  const CursorPath := "public/shuttlecock-cursor.svg"
  const SizeToken := "width=\"100%\""
  const Size32 := "width=\"32px\" height=\"32px\""

  datatype ScriptError = FileNotFound(path: string) | IndexError | WriteError(path: string)

  /** The file system the scripts see: path to the lines of the file. */
  class FileSystem {
    var files: map<string, seq<string>>

    constructor (initial: map<string, seq<string>>)
      ensures files == initial
    {
      files := initial;
    }
  }

  /** Python's `s.replace(p, r)`: every leftmost, non-overlapping occurrence. */
  function ReplaceAll(s: string, p: string, r: string): string
    requires |p| > 0
    decreases |s|
  {
    if |s| < |p| then s
    else if s[..|p|] == p then r + ReplaceAll(s[|p|..], p, r)
    else [s[0]] + ReplaceAll(s[1..], p, r)
  }

  /** Without an occurrence of `p`, `replace` leaves the string alone. */
  lemma {:induction false} ReplaceAllAbsent(s: string, p: string, r: string)
    requires |p| > 0 && !Contains(s, p)
    ensures ReplaceAll(s, p, r) == s
    decreases |s|
  {
    if |s| >= |p| {
      assert !OccursAt(s, p, 0);
      assert !Contains(s[1..], p) by {
        forall i: nat | i <= |s[1..]| ensures !OccursAt(s[1..], p, i) {
          assert !OccursAt(s, p, i + 1);
          if i + |p| <= |s[1..]| {
            assert s[1..][i..i + |p|] == s[i + 1..i + 1 + |p|];
          }
        }
      }
      ReplaceAllAbsent(s[1..], p, r);
      assert s == [s[0]] + s[1..];
    }
  }

  /**
   * A replacement that can never recreate the pattern: the pattern's first
   * character occurs nowhere else in the pattern and nowhere in the
   * replacement but at its start, the replacement's first character occurs
   * nowhere else in the pattern, and the replacement, at least as long as the
   * pattern, does not start with it.
   */
  predicate SafeReplacement(p: string, r: string) {
    && |p| > 0 && |r| >= |p| && r[..|p|] != p
    && (forall i :: 1 <= i < |p| ==> p[i] != p[0])
    && (forall j :: 1 <= j < |r| ==> r[j] != p[0])
    && (forall i :: 1 <= i < |p| ==> p[i] != r[0])
  }

  /**
   * A safe `replace` result that starts with a proper tail of the pattern
   * comes from an input that already started with that tail.
   */
  lemma {:induction false} ReplaceAllTail(s: string, p: string, r: string, k: nat)
    requires SafeReplacement(p, r) && 1 <= k < |p|
    ensures StartsWith(ReplaceAll(s, p, r), p[k..]) ==> StartsWith(s, p[k..])
    decreases |s|
  {
    var t := ReplaceAll(s, p, r);
    if |s| >= |p| {
      if s[..|p|] == p {
        assert t[0] == r[0] && p[k..][0] == p[k] != r[0];
      } else {
        var rest := ReplaceAll(s[1..], p, r);
        assert t == [s[0]] + rest;
        if k + 1 < |p| {
          ReplaceAllTail(s[1..], p, r, k + 1);
          if |t| >= |p| - k {
            assert t[..|p| - k] == [s[0]] + rest[..|p| - k - 1];
          }
          assert s[..|p| - k] == [s[0]] + s[1..][..|p| - k - 1];
        }
      }
    }
  }

  /** The pattern cannot straddle or sit inside a safe replacement. */
  lemma NoOccurrenceAcrossReplacement(p: string, r: string, rest: string, i: nat)
    requires SafeReplacement(p, r) && !Contains(rest, p)
    ensures !OccursAt(r + rest, p, i)
  {
    var t := r + rest;
    if i < |r| {
      if i == 0 {
        assert t[..|p|] == r[..|p|];
      } else if i + |p| <= |t| {
        assert t[i..i + |p|][0] == r[i] != p[0];
      }
    } else {
      if i + |p| <= |t| {
        assert rest[i - |r|..i - |r| + |p|] == t[i..i + |p|];
      }
      assert !OccursAt(rest, p, i - |r|);
    }
  }

  /** An unchanged first character cannot begin an occurrence either. */
  lemma NoOccurrenceAfterKeptChar(s: string, p: string, r: string, i: nat)
    requires SafeReplacement(p, r) && |s| >= |p| && s[..|p|] != p
    requires !Contains(ReplaceAll(s[1..], p, r), p)
    ensures !OccursAt([s[0]] + ReplaceAll(s[1..], p, r), p, i)
  {
    var rest := ReplaceAll(s[1..], p, r);
    var t := [s[0]] + rest;
    if i == 0 {
      if |t| >= |p| {
        if |p| > 1 {
          ReplaceAllTail(s[1..], p, r, 1);
          assert t[..|p|] == [s[0]] + rest[..|p| - 1];
          assert s[..|p|] == [s[0]] + s[1..][..|p| - 1];
        } else {
          assert t[..|p|] == [s[0]] == s[..|p|];
        }
      }
    } else {
      if i + |p| <= |t| {
        assert rest[i - 1..i - 1 + |p|] == t[i..i + |p|];
      }
      assert !OccursAt(rest, p, i - 1);
    }
  }

  /** After a safe `replace`, no occurrence of the pattern is left. */
  lemma {:induction false} ReplaceAllRemoves(s: string, p: string, r: string)
    requires SafeReplacement(p, r)
    ensures !Contains(ReplaceAll(s, p, r), p)
    decreases |s|
  {
    var t := ReplaceAll(s, p, r);
    if |s| < |p| {
      assert forall i: nat :: !OccursAt(t, p, i);
    } else if s[..|p|] == p {
      ReplaceAllRemoves(s[|p|..], p, r);
      forall i: nat | i <= |t| ensures !OccursAt(t, p, i) {
        NoOccurrenceAcrossReplacement(p, r, ReplaceAll(s[|p|..], p, r), i);
      }
    } else {
      ReplaceAllRemoves(s[1..], p, r);
      forall i: nat | i <= |t| ensures !OccursAt(t, p, i) {
        NoOccurrenceAfterKeptChar(s, p, r, i);
      }
    }
  }

  /** When the pattern occurs, its replacement appears in the result. */
  lemma {:induction false} ReplaceAllInserts(s: string, p: string, r: string)
    requires |p| > 0 && Contains(s, p)
    ensures Contains(ReplaceAll(s, p, r), r)
    decreases |s|
  {
    var i: nat :| i <= |s| && OccursAt(s, p, i);
    if s[..|p|] == p {
      assert OccursAt(ReplaceAll(s, p, r), r, 0);
    } else {
      assert i > 0;
      assert s[1..][i - 1..i - 1 + |p|] == s[i..i + |p|];
      assert OccursAt(s[1..], p, i - 1);
      ReplaceAllInserts(s[1..], p, r);
      var t := ReplaceAll(s[1..], p, r);
      var j: nat :| j <= |t| && OccursAt(t, r, j);
      assert ([s[0]] + t)[j + 1..j + 1 + |r|] == t[j..j + |r|];
      assert OccursAt([s[0]] + t, r, j + 1);
    }
  }

  /** Line 1 after the size fix: substituted only if the token is there. */
  function FixHeader(line: string, size: string): string {
    if Contains(line, SizeToken) then ReplaceAll(line, SizeToken, size) else line
  }

  /** Python's `lines[k:]`: empty when `k` is past the end. */
  function From(lines: seq<string>, k: nat): seq<string> {
    if k <= |lines| then lines[k..] else []
  }

  /** `lines[0:2] + lines[11:]` after line 1 has been fixed. */
  function Rewrite(lines: seq<string>, size: string): (r: seq<string>)
    requires |lines| >= 2
    ensures |r| == if |lines| >= 11 then |lines| - 9 else 2
    ensures r[0] == lines[0] && forall k :: 2 <= k < |r| ==> r[k] == lines[k + 9]
  {
    [lines[0], FixHeader(lines[1], size)] + From(lines, 11)
  }

  /** The size token of this script is a safe replacement for `width="100%"`. */
  lemma Size32Safe()
    ensures SafeReplacement(SizeToken, Size32)
  {
    assert Size32[..|SizeToken|] != SizeToken by {
      assert Size32[7] != SizeToken[7];
    }
  }

  /**
   * Line 1 with the token has every occurrence replaced: none is left and the
   * pixel size is present; without the token it is untouched.
   */
  lemma FixHeaderEffect(line: string, size: string)
    requires SafeReplacement(SizeToken, size)
    ensures Contains(line, SizeToken) ==> !Contains(FixHeader(line, size), SizeToken)
    ensures Contains(line, SizeToken) ==> Contains(FixHeader(line, size), size)
    ensures !Contains(line, SizeToken) ==> FixHeader(line, size) == line
  {
    if Contains(line, SizeToken) {
      ReplaceAllRemoves(line, SizeToken, size);
      ReplaceAllInserts(line, SizeToken, size);
    }
  }

  /** A second fix of the header is a no-op: the token is gone after the first. */
  lemma FixHeaderIdempotent(line: string, size: string)
    requires SafeReplacement(SizeToken, size)
    ensures FixHeader(FixHeader(line, size), size) == FixHeader(line, size)
  {
    FixHeaderEffect(line, size);
  }

  /**
   * The output is `input[0:2] ++ input[11:]` with line 1 fixed: its length is
   * n - 9 for n >= 11 lines and 2 below that, line 0 is kept, and every later
   * output line is the input line nine places further on.
   */
  lemma RewriteShape(lines: seq<string>, size: string)
    requires |lines| >= 2
    ensures var out := Rewrite(lines, size);
      && (|lines| >= 11 ==> |out| == |lines| - 9)
      && (|lines| < 11 ==> |out| == 2)
      && out[0] == lines[0]
      && out[1] == FixHeader(lines[1], size)
      && (forall i :: 2 <= i < |out| ==> out[i] == lines[i + 9])
  {
  }

  /** Lines 2..10 are dropped whatever they contain. */
  lemma RewriteIgnoresStrippedLines(a: seq<string>, b: seq<string>, size: string)
    requires |a| == |b| >= 2
    requires forall i :: 0 <= i < |a| && !(2 <= i <= 10) ==> a[i] == b[i]
    ensures Rewrite(a, size) == Rewrite(b, size)
  {
    if |a| > 11 {
      assert a[11..] == b[11..];
    }
  }

  /**
   * Not idempotent: a second run leaves the header as it is but drops nine
   * more lines, those at indices 11..19 of the original.
   */
  lemma RewriteTwice(lines: seq<string>, size: string)
    requires |lines| >= 20 && SafeReplacement(SizeToken, size)
    ensures Rewrite(Rewrite(lines, size), size) == [lines[0], FixHeader(lines[1], size)] + lines[20..]
    ensures |Rewrite(Rewrite(lines, size), size)| == |Rewrite(lines, size)| - 9
    ensures Rewrite(Rewrite(lines, size), size) != Rewrite(lines, size)
  {
    FixHeaderIdempotent(lines[1], size);
    var once := Rewrite(lines, size);
    assert once[11..] == lines[20..];
  }

  /** What one run of the script does to the file system. */
  function ScriptEffect(files: map<string, seq<string>>, writable: bool): (r: (Result<(), ScriptError>, map<string, seq<string>>))
    ensures r.0.Err? ==> r.1 == files
    ensures r.1.Keys == files.Keys
  {
    if CursorPath !in files then (Err(FileNotFound(CursorPath)), files)
    else if |files[CursorPath]| < 2 then (Err(IndexError), files)
    else if !writable then (Err(WriteError(CursorPath)), files)
    else (Ok(()), files[CursorPath := Rewrite(files[CursorPath], Size32)])
  }

  /**
   * The script fails before writing anything when the file is missing or has
   * fewer than two lines; otherwise it overwrites the file it read and
   * nothing else.
   */
  lemma ScriptEffectSpec(files: map<string, seq<string>>, writable: bool)
    ensures var (res, after) := ScriptEffect(files, writable);
      && (res.Ok? <==> CursorPath in files && |files[CursorPath]| >= 2 && writable)
      && (res.Err? ==> after == files)
      && (res.Ok? ==> after.Keys == files.Keys)
      && (res.Ok? ==> forall q :: q in files && q != CursorPath ==> after[q] == files[q])
      && (res.Ok? ==> |after[CursorPath]| == if |files[CursorPath]| >= 11 then |files[CursorPath]| - 9 else 2)
  {
  }

  /**
   * The script: read the lines, fix line 1 in place, keep
   * `lines[0:2] + lines[11:]` and overwrite the same file.  `writable` says
   * whether opening the file for writing succeeds.
   */
  method RunScript(fs: FileSystem, writable: bool) returns (res: Result<(), ScriptError>)
    modifies fs
    ensures (res, fs.files) == ScriptEffect(old(fs.files), writable)
  {
    if CursorPath !in fs.files {
      return Err(FileNotFound(CursorPath));
    }
    var content := fs.files[CursorPath];
    if |content| < 2 {
      return Err(IndexError);
    }
    var lines := new string[|content|](i requires 0 <= i < |content| => content[i]);
    if Contains(lines[1], SizeToken) {
      lines[1] := ReplaceAll(lines[1], SizeToken, Size32);
    }
    var newContent := lines[0..2] + if 11 <= lines.Length then lines[11..] else [];
    assert newContent == Rewrite(content, Size32);
    if !writable {
      return Err(WriteError(CursorPath));
    }
    fs.files := fs.files[CursorPath := newContent];
    res := Ok(());
  }
}
