/** The server of startup_server.c, where the handler thread itself runs each request and the update thread
    each refresh. It is the specification the queued server is measured by. */
module DirectServer {
  import opened Ring
  import opened Ledger
  import opened BenchmarkDbs
  import opened ServerContext
  import C = Controller
  import R = ReplyProtocol
  import S = Server
  import Runs = ServerRuns

  class DirectServer {
    const dbs: BenchmarkDbs
    const context: ServerContext

    ghost predicate Valid()
      reads this, dbs, context, context.statsMatrix, context.dataItems
    {
      dbs.Valid() && dbs.saved == None && context.Valid()
    }

    constructor (dbs: BenchmarkDbs, context: ServerContext)
      ensures this.dbs == dbs && this.context == context
    {
      this.dbs, this.context := dbs, context;
    }

    /** processUserTransaction: what the caller gets in *txn_rc is the result of its own request, and one
        call is one step of the direct server that queued runs are replayed on. */
    method ProcessUserTransaction(request: Request, thread: nat, durationMs: int) returns (rc: int)
      requires Valid() && thread < context.threads
      modifies dbs, context`numTxnToWait, context.statsMatrix
      ensures Valid()
      ensures (dbs.View(), rc) == Dispatch(old(dbs.View()), request)
      ensures forall txn: Entry<R.UserTxn>, log :: txn.body.request == request ==>
                Runs.DirectUser(Runs.Direct(old(dbs.View()), log), txn)
                  == Runs.Direct(dbs.View(), log + [S.Answered(txn, rc)])
      ensures var was := old(context.View());
              context.View() == C.Record(context.cfg, was.(toWait := C.Decremented(was.toWait)), thread,
                                         rc == SUCCESS, durationMs)
    {
      rc := dbs.Execute(request);
      context.Finish(thread, rc == SUCCESS, durationMs);
    }

    /** processRefreshTransaction: only a refresh that succeeds counts for admission control. */
    method ProcessRefreshTransaction(symbol: string, up: bool) returns (rc: int)
      requires Valid()
      modifies dbs, context`numTxnToWait
      ensures Valid()
      ensures (dbs.View(), rc) == Refresh(old(dbs.View()), symbol, up)
      ensures forall refresh: Entry<string>, log :: refresh.body == symbol ==>
                Runs.DirectRefresh(Runs.Direct(old(dbs.View()), log), refresh, up)
                  == Runs.Direct(dbs.View(), log + [S.Refreshed(refresh, up, rc)])
      ensures var was := old(context.View());
              context.View() == if rc == SUCCESS then was.(toWait := C.Decremented(was.toWait)) else was
    {
      rc := dbs.UpdateStock(symbol, -1.0, up);
      if rc != SUCCESS {
        return FAIL;
      }
      if context.numTxnToWait > 0 {
        context.numTxnToWait := context.numTxnToWait - 1;
      }
    }
  }
}
