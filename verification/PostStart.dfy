/** The SQL files that are executed once seeding is done. */
module PostStart {

  /** A configured file: unreadable, or readable with its text and the server's verdict. */
  datatype SqlFile = NotReadable | Sql(text: string, accepted: bool)

  function ReadableFiles(files: seq<SqlFile>): (r: seq<SqlFile>)
    ensures forall i :: 0 <= i < |r| ==> r[i].Sql?
  {
    if files == [] then []
    else if files[|files| - 1].Sql? then ReadableFiles(files[..|files| - 1]) + [files[|files| - 1]]
    else ReadableFiles(files[..|files| - 1])
  }

  /** What is executed is the readable files in order, up to and including the first one
      the server rejects; unreadable files are passed over. */
  predicate ExecutedUpToRejection(files: seq<SqlFile>, executed: seq<string>, ok: bool) {
    var readable := ReadableFiles(files);
    && |executed| <= |readable|
    && (forall i :: 0 <= i < |executed| ==> executed[i] == readable[i].text)
    && (forall i :: 0 <= i < |executed| - 1 ==> readable[i].accepted)
    && (ok ==> |executed| == |readable| && forall i :: 0 <= i < |readable| ==> readable[i].accepted)
    && (!ok ==> executed != [] && !readable[|executed| - 1].accepted)
  }

  /** The server accepts every file that can be read. */
  predicate AllAccepted(files: seq<SqlFile>) {
    forall i :: 0 <= i < |files| && files[i].Sql? ==> files[i].accepted
  }

  /** The readable files are, in order, those at the positions `at`, and those are all
      positions that hold a readable file. */
  lemma {:induction false} ReadableFilesAreAll(files: seq<SqlFile>) returns (at: seq<nat>)
    ensures forall j, k :: 0 <= j < k < |at| ==> at[j] < at[k]
    ensures forall j :: 0 <= j < |at| ==> at[j] < |files|
    ensures forall i :: 0 <= i < |files| && files[i].Sql? ==> i in at
    ensures |ReadableFiles(files)| == |at|
    ensures forall j :: 0 <= j < |at| ==> files[at[j]].Sql? && ReadableFiles(files)[j] == files[at[j]]
  {
    if files == [] {
      at := [];
    } else {
      var n := |files| - 1;
      var before := files[..n];
      at := ReadableFilesAreAll(before);
      assert forall i :: 0 <= i < n ==> before[i] == files[i];
      if files[n].Sql? {
        at := at + [n];
      }
    }
  }

  lemma {:induction false} AllAcceptedInOrder(files: seq<SqlFile>)
    ensures AllAccepted(files) <==>
      forall j :: 0 <= j < |ReadableFiles(files)| ==> ReadableFiles(files)[j].accepted
  {
    var at := ReadableFilesAreAll(files);
    if AllAccepted(files) {
      forall j | 0 <= j < |at| ensures ReadableFiles(files)[j].accepted { assert files[at[j]].accepted; }
    } else {
      var i :| 0 <= i < |files| && files[i].Sql? && !files[i].accepted;
      var j :| 0 <= j < |at| && at[j] == i;
      assert !ReadableFiles(files)[j].accepted;
    }
  }

  lemma {:induction false} ReadableFilesPrefix(files: seq<SqlFile>, k: nat)
    requires k <= |files|
    ensures ReadableFiles(files[..k]) <= ReadableFiles(files)
  {
    if k < |files| {
      var before := files[..|files| - 1];
      assert before[..k] == files[..k];
      ReadableFilesPrefix(before, k);
    } else {
      assert files[..k] == files;
    }
  }

  method RunPostStartSQL(openable: bool, files: seq<SqlFile>) returns (ok: bool, executed: seq<string>)
    ensures openable ==> ExecutedUpToRejection(files, executed, ok)
    ensures !openable ==> !ok && executed == []
    ensures ok <==> openable && AllAccepted(files)
  {
    executed := [];
    AllAcceptedInOrder(files);
    if !openable {
      return false, executed;
    }
    var i := 0;
    while i < |files|
      invariant 0 <= i <= |files|
      invariant ExecutedUpToRejection(files[..i], executed, true)
    {
      assert files[..i + 1][..i] == files[..i];
      if files[i].Sql? {
        executed := executed + [files[i].text];
        if !files[i].accepted {
          ReadableFilesPrefix(files, i + 1);
          return false, executed;
        }
      }
      i := i + 1;
    }
    assert files[..i] == files;
    ok := true;
  }
}
