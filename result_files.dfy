/** Choosing the result file to inspect after a run: the `*.trx` file whose
    name sorts last. */
module ResultFiles {
  import opened Wrappers
  import opened Trx
  import opened Text

  const TrxExtension := ".trx"

  /** The `*.trx` pattern: the name ends with the extension. */
  predicate IsTrx(name: string)
  {
    |name| >= |TrxExtension| && name[|name| - |TrxExtension|..] == TrxExtension
  }

  /** The result files in the listing, sorted by name, last one taken; `None`
      when there is none. Among equal names the one listed later wins, as a
      stable sort followed by taking the last element does. */
  function LatestTrx(files: seq<FileEntry>): Option<FileEntry>
    decreases |files|
  {
    if files == [] then None
    else
      var f := files[|files| - 1];
      var earlier := LatestTrx(files[..|files| - 1]);
      if !IsTrx(f.name) then earlier
      else if earlier.Some? && !OrdinalLessEq(earlier.value.name, f.name) then earlier
      else Some(f)
  }

  /** The chosen file is a listed `*.trx` file whose name no other listed
      `*.trx` file's name sorts after; there is none exactly when no listed
      file matches the pattern. */
  lemma {:induction false} LatestTrxIsMaximum(files: seq<FileEntry>)
    ensures LatestTrx(files).None? <==> forall i :: 0 <= i < |files| ==> !IsTrx(files[i].name)
    ensures LatestTrx(files).Some? ==>
              var f := LatestTrx(files).value;
              f in files && IsTrx(f.name)
              && forall i :: 0 <= i < |files| && IsTrx(files[i].name) ==> OrdinalLessEq(files[i].name, f.name)
    decreases |files|
  {
    if files != [] {
      var n := |files| - 1;
      var front := files[..n];
      LatestTrxIsMaximum(front);
      assert forall i :: 0 <= i < n ==> files[i] == front[i];
      var f := files[n];
      var earlier := LatestTrx(front);
      if IsTrx(f.name) {
        if earlier.Some? {
          var g := earlier.value;
          OrdinalTotal(g.name, f.name);
          if OrdinalLessEq(g.name, f.name) {
            forall i | 0 <= i < n && IsTrx(files[i].name)
              ensures OrdinalLessEq(files[i].name, f.name)
            {
              OrdinalTransitive(files[i].name, g.name, f.name);
            }
          }
        }
        assert OrdinalLessEq(f.name, f.name) by { OrdinalTotal(f.name, f.name); }
      }
    }
  }

  /** Names differ in one character: "c.trx" is chosen over "a.trx" and
      "b.trx" whatever the listing order, and a listing without result files
      gives none. */
  lemma LatestTrxExamples()
    ensures LatestTrx([FileEntry("a.trx", None), FileEntry("c.trx", None), FileEntry("b.trx", None)])
         == Some(FileEntry("c.trx", None))
    ensures LatestTrx([FileEntry("notes.txt", None)]) == None
    ensures LatestTrx([]) == None
  {
    var files := [FileEntry("a.trx", None), FileEntry("c.trx", None), FileEntry("b.trx", None)];
    assert IsTrx("a.trx") && IsTrx("b.trx") && IsTrx("c.trx");
    assert files[..1] == [files[0]];
    assert files[..2][..1] == [files[0]];
    assert LatestTrx(files[..1]) == Some(files[0]);
    assert OrdinalLessEq("a.trx", "c.trx");
    assert LatestTrx(files[..2]) == Some(files[1]);
    assert !OrdinalLessEq("c.trx", "b.trx");
    assert !IsTrx("notes.txt");
  }
}
