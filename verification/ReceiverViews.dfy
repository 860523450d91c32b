/** The receiver of the resume protocol is the incoming-transfer bookkeeping of a device, seen at one
    transfer. */
module ReceiverViews {
  import opened Prelude
  import opened TransferStates
  import opened TransferSource
  import opened TransferProducer
  import opened TransferReceiver
  import opened IncomingTransfers
  import P = ResumeProtocol

  /** The ledger shows this transfer, with its payload at `path`. */
  predicate Shows(s: Ledger, id: TransferId, path: PayloadPath, p: P.Protocol) {
    && (id in s.pending <==> p.pending.Some?)
    && (id in s.pending ==> s.pending[id] == Entry(path, p.pending.value))
    && At(s.disk, path) == p.target
  }

  /** Nothing goes wrong outside the transfer. */
  predicate Undisturbed(around: Surroundings) {
    around.pathsOk && around.payloadOk
  }

  /** A chunk does the same to both. */
  lemma {:induction false} ChunksAgree(resolvers: Resolvers, s: Ledger, id: TransferId, path: PayloadPath, p: P.Protocol,
        chunk: TransferFrame, around: Surroundings)
    requires Shows(s, id, path, p) && Undisturbed(around) && chunk.Chunk?
    ensures Shows(OnFrame(resolvers, s, Transfer(id, chunk), around), id, path, P.OnChunk(resolvers(path), p, chunk))
  {
    if id in s.pending {
      var after := ReceiveChunk(resolvers(path), p.target, p.pending.value, chunk);
      assert At(s.disk[path := after.target], path) == after.target;
    }
  }

  /** A complete frame as well; the payload counts as completed exactly when `Completed` is queued. */
  lemma {:induction false} CompletesAgree(resolvers: Resolvers, s: Ledger, id: TransferId, path: PayloadPath, p: P.Protocol,
        size: nat, around: Surroundings)
    requires Shows(s, id, path, p) && Undisturbed(around)
    ensures Shows(OnFrame(resolvers, s, Transfer(id, Complete(size)), around), id, path, P.OnComplete(p, size))
    ensures P.OnComplete(p, size).completed != p.completed
       <==> OnFrame(resolvers, s, Transfer(id, Complete(size)), around).updates
            == s.updates + [PartUpdate(id, Completed, size, path)]
  {
    var s', p' := OnFrame(resolvers, s, Transfer(id, Complete(size)), around), P.OnComplete(p, size);
    if p'.completed != p.completed {
      assert s'.updates == s.updates + [PartUpdate(id, Completed, size, path)];
    } else if s'.updates != s.updates {
      assert s'.updates[|s.updates|].state == Failed;
    }
  }

  /** The history names the part that the protocol's record describes, and otherwise an unused path is chosen. */
  predicate HistoryAgrees(source: Source, s: Ledger, id: TransferId, path: PayloadPath, p: P.Protocol, around: Surroundings) {
    id !in s.pending ==>
      if p.part.state.Interrupted? || p.part.state.Transferring?
      then around.interrupted == Some(InterruptedPart(Some(path), source.FolderSource?))
      else around.interrupted.None? && At(s.disk, around.freshPath) == Missing
  }

  /** An offer, at the path that the ledger chooses for it. */
  lemma {:induction false} OffersAgree(resolvers: Resolvers, source: Source, s: Ledger, id: TransferId, path: PayloadPath,
        p: P.Protocol, resumeRequest: bool, around: Surroundings)
    requires Shows(s, id, path, p) && Undisturbed(around) && HistoryAgrees(source, s, id, path, p, around)
    ensures Shows(OnFrame(resolvers, s, Transfer(id, Offer(source.Size(), source.FolderSource?, resumeRequest)), around), id,
                  OfferPath(s, id, around), P.OnOffer(source, p, resumeRequest))
  {
    assert OfferPath(s, id, around) == path || At(s.disk, OfferPath(s, id, around)) == Missing;
  }

  lemma {:induction false} AcceptsAgree(source: Source, s: Ledger, id: TransferId, path: PayloadPath, p: P.Protocol,
        around: Surroundings)
    requires Shows(s, id, path, p) && Undisturbed(around)
    ensures Shows(OnAccept(s, id, path, source.FolderSource?, p.part.state.Interrupted?, P.RecordedSize(p.part), around),
                  id, path, P.OnAccept(source, p))
  {}

  /** A closed stream interrupts this transfer too. */
  lemma {:induction false} ClosingsAgree(s: Ledger, id: TransferId, path: PayloadPath, p: P.Protocol, order: seq<TransferId>)
    requires Shows(s, id, path, p) && IsOrderOf(order, s.pending.Keys)
    ensures Shows(OnStreamClosed(s, order), id, path, P.Interrupt(p))
  {}
}
