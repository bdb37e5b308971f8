/** Replies and commands, sent in pieces: the reader at the other end returns the trees that were written. */
module RespPipeline {
  import opened Bytes
  import opened RespGrammar
  import opened RespReader
  import opened RespFormat
  import opened RespEncode

  /**
   * However the bytes of written replies are divided, a reader fed with them
   * returns exactly those trees, up to the first that nests too deep.
   */
  method ReadReplies(reader: Reader, ghost rs: seq<Reply>, ghost n: nat, chunks: seq<bytes>)
    returns (handles: seq<nat>)
    requires reader.Valid() && reader.Idle() && reader.Unread() == []
    requires Concat(chunks) == EncodeElements(rs) && forall r :: r in rs ==> Writable(r)
    requires n <= |rs| && forall i :: 0 <= i < n ==> Fits(rs[i], 0)
    requires n < |rs| ==> !Fits(rs[n], 0)
    modifies reader, reader.rstack
    ensures reader.Valid() && |handles| == n
    ensures reader.err == if n < |rs| then Some(TooDeep) else None
    ensures forall i :: 0 <= i < n ==> Denotes(reader.store, reader.finished, handles[i], rs[i])
  {
    hide Denotes;
    StreamParses(rs, n);
    handles := reader.FeedAll(chunks);
  }

  /** However the bytes of printed commands are divided, a reader fed with them returns exactly those arrays. */
  method ReadPipeline(reader: Reader, ghost cmds: seq<seq<bytes>>, chunks: seq<bytes>) returns (handles: seq<nat>)
    requires reader.Valid() && reader.Idle() && reader.Unread() == []
    requires Concat(chunks) == Commands(cmds)
    modifies reader, reader.rstack
    ensures reader.Valid() && reader.err == None && |handles| == |cmds|
    ensures forall i :: 0 <= i < |cmds| ==>
              Denotes(reader.store, reader.finished, handles[i], CommandReply(cmds[i]))
  {
    hide Denotes;
    PipelineParses(cmds);
    handles := reader.FeedAll(chunks);
  }
}
