/** How many chunks one thread needs when no call fails and it does not fork. */
module Packing {
  import opened Common
  import opened PathAccesses
  import opened AccessLog
  import opened Client

  function Total(logs: seq<seq<PathAccess>>): nat {
    if logs == [] then 0 else |Layout(logs[0])| + Total(logs[1..])
  }

  /** Any two consecutive chunks together use more bytes than one chunk has. */
  ghost predicate Dense(logs: seq<seq<PathAccess>>) {
    forall i :: 0 < i < |logs| ==> |Layout(logs[i - 1])| + |Layout(logs[i])| > CHUNK_SIZE
  }

  lemma {:induction false} ChunkBound(logs: seq<seq<PathAccess>>)
    requires Dense(logs)
    ensures |logs| / 2 * (CHUNK_SIZE + 1) <= Total(logs)
  {
    hide Layout;
    if |logs| >= 2 {
      var rest := logs[2..];
      assert logs[1..][1..] == rest;
      assert Dense(rest) by {
        forall i | 0 < i < |rest|
          ensures |Layout(rest[i - 1])| + |Layout(rest[i])| > CHUNK_SIZE
        {
          assert rest[i - 1] == logs[i + 2 - 1] && rest[i] == logs[i + 2];
          assert |Layout(logs[i + 2 - 1])| + |Layout(logs[i + 2])| > CHUNK_SIZE;
        }
      }
      ChunkBound(rest);
      assert |Layout(logs[1 - 1])| + |Layout(logs[1])| > CHUNK_SIZE;
    }
  }

  /** Placing a record keeps the chunks dense, given that the cursor is behind the last frame. */
  lemma PlacedStaysDense(logs: seq<seq<PathAccess>>, a: PathAccess, logs': seq<seq<PathAccess>>)
    requires Dense(logs)
    requires logs != [] && |Layout(logs[|logs| - 1])| + RequestSize(a) <= CHUNK_SIZE ==>
      logs' == logs[|logs| - 1 := logs[|logs| - 1] + [a]]
    requires !(logs != [] && |Layout(logs[|logs| - 1])| + RequestSize(a) <= CHUNK_SIZE) ==> logs' == logs + [[a]]
    ensures Dense(logs')
  {
    hide Frame;
    LayoutAppend([], a);
    assert Layout([]) == [] && [] + [a] == [a];
    if logs != [] {
      LayoutAppend(logs[|logs| - 1], a);
    }
    hide Layout;
  }

  /** What is recorded of a list of accesses. */
  function Recorded(accesses: seq<PathAccess>): seq<PathAccess> {
    if accesses == [] then []
    else
      var last := accesses[|accesses| - 1];
      Recorded(accesses[..|accesses| - 1]) + (if Ignored(last.path) then [] else [last])
  }

  /** All but the paths below `/dev/`, `/proc/` and `/sys/`, in order. */
  lemma RecordedOneMore(accesses: seq<PathAccess>, a: PathAccess)
    ensures Recorded([]) == []
    ensures
      || [47, 100, 101, 118, 47] <= a.path
      || [47, 112, 114, 111, 99, 47] <= a.path
      || [47, 115, 121, 115, 47] <= a.path ==>
        Recorded(accesses + [a]) == Recorded(accesses)
    ensures
      && !([47, 100, 101, 118, 47] <= a.path)
      && !([47, 112, 114, 111, 99, 47] <= a.path)
      && !([47, 115, 121, 115, 47] <= a.path) ==>
        Recorded(accesses + [a]) == Recorded(accesses) + [a]
  {
    IgnoredExactly(a.path);
    hide Ignored;
    assert (accesses + [a])[..|accesses|] == accesses;
  }

  /** A client all of whose chunks are dense, the cursor behind the last frame of the last one. */
  ghost predicate Packed(c: Client)
    reads c, c.sent, c.cursor
  {
    && c.Valid()
    && |c.logs| == |c.sent|
    && Dense(c.logs)
    && (c.cursor == null <==> c.logs == [])
    && (c.cursor != null ==> c.current == |c.logs| - 1 && c.cursor.position == |Layout(c.logs[c.current])|)
  }

  /** One more access is recorded, every call succeeding. */
  method RecordOne(c: Client, a: PathAccess)
    requires Packed(c) && (|a.path| <= MAX_PATH || Ignored(a.path))
    modifies c, c.cursor, c.sent
    ensures Packed(c)
    ensures Flatten(c.logs) == Flatten(old(c.logs)) + (if Ignored(a.path) then [] else [a])
    ensures old(c.sent) <= c.sent && forall j :: |old(c.sent)| <= j < |c.sent| ==> fresh(c.sent[j])
    ensures c.cursor == old(c.cursor) || fresh(c.cursor)
  {
    hide Layout, Flatten, Frame, FilesWritten, Ignored, SentView, Contents, Dense;
    ghost var before := c.logs;
    var ok := c.Send(a, NoFault, NoFault);
    if !Ignored(a.path) {
      PlacedStaysDense(before, a, c.logs);
    }
    FilesCount(c.sent, c.logs);
  }

  /** One thread records `accesses`, every call succeeding. All of them that are not ignored are published,
      in order, in at most twice as many chunks as the bytes would fill, plus one. */
  method RecordAll(accesses: seq<PathAccess>) returns (c: Client)
    requires forall i :: 0 <= i < |accesses| ==> |accesses[i].path| <= MAX_PATH || Ignored(accesses[i].path)
    ensures c.Valid() && Flatten(c.logs) == Recorded(accesses)
    ensures |c.sent| == |c.logs| && Dense(c.logs)
    ensures |c.sent| / 2 * (CHUNK_SIZE + 1) <= Total(c.logs)
  {
    hide Layout, Flatten, FilesWritten, Ignored, Dense;
    c := new Client();
    FilesCount(c.sent, c.logs);
    FlattenEmpty(c.logs);
    NothingIsDense();
    for i := 0 to |accesses|
      invariant fresh(c) && (c.cursor != null ==> fresh(c.cursor))
      invariant forall j :: 0 <= j < |c.sent| ==> fresh(c.sent[j])
      invariant Packed(c) && Flatten(c.logs) == Recorded(accesses[..i])
    {
      ghost var sent := c.sent;
      RecordOne(c, accesses[i]);
      assert forall j :: 0 <= j < |sent| ==> c.sent[j] == sent[j];
      assert accesses[..i + 1][..i] == accesses[..i];
    }
    assert accesses[..|accesses|] == accesses;
    ChunkBound(c.logs);
  }

  lemma NothingIsDense()
    ensures Dense([])
  {
  }
}
