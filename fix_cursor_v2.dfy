/**
 * `fix_cursor_v2.py`: the same line-range rewrite with a 48px size, read from
 * `public/shuttlecock-cursor1.svg`, written to `public/shuttlecock-cursor.svg`,
 * after which the source file is deleted on a best-effort basis (any
 * deletion error is swallowed).
 */
module FixCursorV2 {
  import opened Strings
  import opened Wrappers
  import opened FixCursor

  const SourcePath := "public/shuttlecock-cursor1.svg"
  const TargetPath := "public/shuttlecock-cursor.svg"
  const Size48 := "width=\"48px\" height=\"48px\""

  lemma Size48Safe()
    ensures SafeReplacement(SizeToken, Size48)
  {
    assert Size48[..|SizeToken|] != SizeToken by {
      assert Size48[7] != SizeToken[7];
    }
  }

  /**
   * What one run does: `writable` says whether the target can be opened for
   * writing, `deleted` whether `os.remove(source)` succeeds.
   */
  function ScriptEffect(files: map<string, seq<string>>, writable: bool, deleted: bool): (r: (Result<(), ScriptError>, map<string, seq<string>>))
    ensures r.0.Err? ==> r.1 == files
    ensures r.1.Keys <= files.Keys + {TargetPath}
    ensures r.0.Ok? ==> TargetPath in r.1
  {
    if SourcePath !in files then (Err(FileNotFound(SourcePath)), files)
    else if |files[SourcePath]| < 2 then (Err(IndexError), files)
    else if !writable then (Err(WriteError(TargetPath)), files)
    else
      var written := files[TargetPath := Rewrite(files[SourcePath], Size48)];
      (Ok(()), if deleted then written - {SourcePath} else written)
  }

  /** The source is never the write target. */
  lemma SourceIsNotTarget()
    ensures SourcePath != TargetPath
  {
    assert SourcePath[25] != TargetPath[25];
  }

  /**
   * Success does not depend on the deletion: the result and the target's
   * content are the same whether or not `os.remove` succeeds, and the
   * target holds `lines[0:2] + lines[11:]` of the source with line 1 resized.
   */
  lemma DeletionIsBestEffort(files: map<string, seq<string>>, writable: bool)
    ensures ScriptEffect(files, writable, true).0 == ScriptEffect(files, writable, false).0
    ensures var (res, after) := ScriptEffect(files, writable, true);
      res.Ok? ==> TargetPath in after && after[TargetPath] == Rewrite(files[SourcePath], Size48)
    ensures var (res, after) := ScriptEffect(files, writable, false);
      res.Ok? ==> TargetPath in after && after[TargetPath] == Rewrite(files[SourcePath], Size48)
  {
    SourceIsNotTarget();
  }

  /**
   * Failures happen before any write or delete: a missing source, a source
   * with fewer than two lines (`lines[1]`), or an unwritable target leave the
   * file system unchanged; a successful run touches only the target and, when
   * the delete succeeds, removes the source.
   */
  lemma ScriptEffectSpec(files: map<string, seq<string>>, writable: bool, deleted: bool)
    ensures var (res, after) := ScriptEffect(files, writable, deleted);
      && (res.Ok? <==> SourcePath in files && |files[SourcePath]| >= 2 && writable)
      && (res.Err? ==> after == files)
      && (res.Ok? ==> (SourcePath in after <==> !deleted))
      && (res.Ok? ==> forall q :: q in files && q != SourcePath && q != TargetPath ==> q in after && after[q] == files[q])
      && (res.Ok? && !deleted ==> after[SourcePath] == files[SourcePath])
  {
    SourceIsNotTarget();
  }

  /** The script, step by step over the file system. */
  method RunScript(fs: FileSystem, writable: bool, deleted: bool) returns (res: Result<(), ScriptError>)
    modifies fs
    ensures (res, fs.files) == ScriptEffect(old(fs.files), writable, deleted)
  {
    if SourcePath !in fs.files {
      return Err(FileNotFound(SourcePath));
    }
    var content := fs.files[SourcePath];
    if |content| < 2 {
      return Err(IndexError);
    }
    var lines := new string[|content|](i requires 0 <= i < |content| => content[i]);
    if Contains(lines[1], SizeToken) {
      lines[1] := ReplaceAll(lines[1], SizeToken, Size48);
    }
    var newContent := lines[0..2] + if 11 <= lines.Length then lines[11..] else [];
    assert newContent == Rewrite(content, Size48);
    if !writable {
      return Err(WriteError(TargetPath));
    }
    fs.files := fs.files[TargetPath := newContent];
    // try: os.remove(source) / except: pass
    if deleted {
      fs.files := fs.files - {SourcePath};
    }
    res := Ok(());
  }
}
