/** What the two upload pages share: the entry they keep per accepted file and
    the error map one validation pass produces. */
module Intake {
  import opened Wrappers
  import opened FileValidation

  /** An abstract object-URL handle for a preview. */
  type Handle = nat

  /** A page's `FileObject`: the file, its numeric id and an optional preview. */
  datatype FileEntry = FileEntry(file: FileInfo, id: int, preview: Option<Handle>)

  predicate Passes(f: FileInfo) {
    ValidateFile(f, MaxFileSizeMiB, AllowedTypes).None?
  }

  /** The errors of one validation pass, keyed by file name; when two refused
      files share a name, the later one's message is kept. */
  function ValidationErrors(fs: seq<FileInfo>): map<string, string>
  {
    if fs == [] then map[]
    else
      var f := fs[|fs| - 1];
      var m := ValidationErrors(fs[..|fs| - 1]);
      match ValidateFile(f, MaxFileSizeMiB, AllowedTypes)
      case Some(msg) => m[f.name := msg]
      case None => m
  }

  /** A name is a key exactly when some refused candidate carries it, and every
      value is one of the validator's messages. */
  lemma {:induction false} ValidationErrorsKeys(fs: seq<FileInfo>, name: string)
    ensures name in ValidationErrors(fs) <==>
            exists i :: 0 <= i < |fs| && fs[i].name == name && !Passes(fs[i])
    ensures name in ValidationErrors(fs) ==>
            exists i :: 0 <= i < |fs| && fs[i].name == name &&
                        ValidateFile(fs[i], MaxFileSizeMiB, AllowedTypes) == Some(ValidationErrors(fs)[name])
  {
    if fs != [] {
      var n := |fs| - 1;
      ValidationErrorsKeys(fs[..n], name);
      if name in ValidationErrors(fs[..n]) {
        var i :| 0 <= i < n && fs[..n][i].name == name && !Passes(fs[..n][i]);
        assert fs[i] == fs[..n][i];
      }
      if exists i :: 0 <= i < |fs| && fs[i].name == name && !Passes(fs[i]) {
        var i :| 0 <= i < |fs| && fs[i].name == name && !Passes(fs[i]);
        if i < n { assert fs[..n][i] == fs[i]; }
      }
      if name in ValidationErrors(fs) && !(fs[n].name == name && !Passes(fs[n])) {
        var i :| 0 <= i < n && fs[..n][i].name == name &&
                 ValidateFile(fs[..n][i], MaxFileSizeMiB, AllowedTypes) == Some(ValidationErrors(fs[..n])[name]);
        assert fs[i] == fs[..n][i];
      }
    }
  }

  /** The later refused file wins: the message kept under a name is that of
      the last refused candidate carrying it. */
  lemma {:induction false} ValidationErrorsLastWins(fs: seq<FileInfo>, i: nat)
    requires i < |fs| && !Passes(fs[i])
    requires forall j :: i < j < |fs| && fs[j].name == fs[i].name ==> Passes(fs[j])
    ensures fs[i].name in ValidationErrors(fs)
    ensures Some(ValidationErrors(fs)[fs[i].name]) == ValidateFile(fs[i], MaxFileSizeMiB, AllowedTypes)
  {
    var n := |fs| - 1;
    if i < n {
      forall j | i < j < n && fs[..n][j].name == fs[..n][i].name
        ensures Passes(fs[..n][j])
      {
        assert fs[..n][j] == fs[j];
      }
      assert fs[..n][i] == fs[i];
      ValidationErrorsLastWins(fs[..n], i);
    }
  }

  /** True when no two entries share an id. */
  predicate IdsDistinct(es: seq<FileEntry>) {
    forall i, j :: 0 <= i < j < |es| ==> es[i].id != es[j].id
  }

  /** The preview handles the entries hold. */
  function Previews(es: seq<FileEntry>): set<Handle> {
    set e | e in es && e.preview.Some? :: e.preview.value
  }

  /** The previews of a concatenation are those of its two parts. */
  lemma PreviewsConcat(a: seq<FileEntry>, b: seq<FileEntry>)
    ensures Previews(a + b) == Previews(a) + Previews(b)
  {
    assert forall x :: x in a + b <==> x in a || x in b;
  }

  /** Entries without previews hold no handle. */
  lemma PreviewsNone(es: seq<FileEntry>)
    requires forall e :: e in es ==> e.preview.None?
    ensures Previews(es) == {}
  {
  }

  /** Appending an entry adds its preview, if it has one, and nothing else. */
  lemma PreviewsAppend(es: seq<FileEntry>, e: FileEntry)
    ensures Previews(es + [e]) == Previews(es) + (if e.preview.Some? then {e.preview.value} else {})
  {
    assert forall x :: x in es + [e] <==> x in es || x == e;
  }
}
