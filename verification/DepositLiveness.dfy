/**
 Whatever has happened to an outbound deposit, and however silent its partner stays, the customer's funds can
 still be settled: the margin releases what nobody answers for.
 */
module DepositLiveness {
  import opened Prelude
  import MapSums
  import opened Ledger
  import opened InterbankRules
  import opened Outbound
  import opened Deposit
  import opened DepositSafety

  ghost predicate Reaches(w: World, cfg: Config, w': World) {
    exists steps: seq<Step> :: Run(w, cfg, steps) == w'
  }

  lemma AndThen(w: World, cfg: Config, middle: World, step: Step) returns (w': World)
    requires Reaches(w, cfg, middle) && Inv(middle, cfg)
    ensures w' == Next(middle, cfg, step) && Reaches(w, cfg, w') && Inv(w', cfg)
  {
    w' := Next(middle, cfg, step);
    NextKeeps(middle, cfg, step);
    var steps :| Run(w, cfg, steps) == middle;
    RunSplits(w, cfg, steps, [step]);
    assert Run(w', cfg, [step][1..]) == w';
  }

  predicate Held(w: World) {
    w.side.ours.op == Some(OpReserved)
  }

  /** The reservation is announced if it was not, and Payment creates its row. */
  lemma GetsRow(w: World, cfg: Config, middle: World) returns (w': World)
    requires Reaches(w, cfg, middle) && Inv(middle, cfg) && Held(middle) && !cfg.refund
    ensures Reaches(w, cfg, w') && Inv(w', cfg) && Held(w') && w'.side.ours.row.Some?
  {
    w' := middle;
    if w'.side.ours.row.None? {
      if FundsReservedSent !in w'.side.ours.accountEvents {
        w' := AndThen(w, cfg, w', ReserveFunds(true, true));
      }
      w' := AndThen(w, cfg, w', CreateRow);
    }
  }

  lemma TimesOut(w: World, cfg: Config, middle: World) returns (w': World)
    requires Reaches(w, cfg, middle) && Inv(middle, cfg) && Held(middle)
    requires middle.side.ours.row.Some? && !Final(middle.side.ours.row.value.state)
    ensures Reaches(w, cfg, w') && Inv(w', cfg) && Held(w') && w'.side.ours.row.Some? && w'.side.ours.row.value.state.Timeout?
  {
    w' := middle;
    var row := middle.side.ours.row.value;
    if !row.state.Timeout? {
      w' := AndThen(w, cfg, w', Wait(Max(0, row.expiresAt + 1 - w'.side.now)));
      w' := AndThen(w, cfg, w', ExpireRow(w'.side.now));
    }
  }

  /** Once the margin is over, nobody's word is needed. */
  lemma GetsFinal(w: World, cfg: Config, middle: World) returns (w': World)
    requires Reaches(w, cfg, middle) && Inv(middle, cfg) && Held(middle)
    requires middle.side.ours.row.Some? && middle.side.ours.row.value.state.Timeout?
    ensures Reaches(w, cfg, w') && Inv(w', cfg) && Held(w') && w'.side.ours.row.Some? && Final(w'.side.ours.row.value.state)
  {
    var row := middle.side.ours.row.value;
    w' := AndThen(w, cfg, middle, Wait(Max(0, row.expiresAt + cfg.settings.marginSeconds * 1000 - middle.side.now)));
    w' := AndThen(w, cfg, w', HandleTimeout(row, NetworkError, w'.side.now));
  }

  lemma GetsPublished(w: World, cfg: Config, middle: World) returns (w': World)
    requires Reaches(w, cfg, middle) && Inv(middle, cfg) && Held(middle) && !cfg.refund
    requires middle.side.ours.row.Some? && Final(middle.side.ours.row.value.state)
    ensures Reaches(w, cfg, w') && Inv(w', cfg) && Held(w')
    ensures Accepted in w'.side.ours.published || Rejected in w'.side.ours.published || Reversed in w'.side.ours.published
  {
    w' := middle;
    if middle.side.ours.row.value.state !in middle.side.ours.published {
      var f := MapSums.FreshKey(middle.side.ours.flushers);
      w' := AndThen(w, cfg, w', FlushRead(f));
      w' := AndThen(w, cfg, w', FlushPublish(f));
    }
  }

  lemma GetsSettled(w: World, cfg: Config, middle: World) returns (w': World)
    requires Reaches(w, cfg, middle) && Inv(middle, cfg) && Held(middle)
    requires var p := middle.side.ours.published; Accepted in p || Rejected in p || Reversed in p
    ensures Reaches(w, cfg, w') && Settled(w'.side.ours) && DepositSafety.Announced(w'.side.ours)
  {
    w' := AndThen(w, cfg, middle, if Accepted in middle.side.ours.published then DebitFunds(true) else ReleaseFunds(true));
  }

  /** From every reachable state some continuation settles the held funds of a customer's deposit, and announces it. */
  lemma HeldFundsCanBeSettled(cfg: Config, began: int, before: seq<Step>) returns (steps: seq<Step>)
    requires !cfg.refund && Held(Run(Start(began), cfg, before))
    ensures var o := Run(Run(Start(began), cfg, before), cfg, steps).side.ours;
            Settled(o) && DepositSafety.Announced(o)
  {
    var w := Run(Start(began), cfg, before);
    Reachable(cfg, began, before);
    assert Run(w, cfg, []) == w;
    var w' := GetsRow(w, cfg, w);
    if !Final(w'.side.ours.row.value.state) {
      w' := TimesOut(w, cfg, w');
      w' := GetsFinal(w, cfg, w');
    }
    w' := GetsPublished(w, cfg, w');
    w' := GetsSettled(w, cfg, w');
    steps :| Run(w, cfg, steps) == w';
  }
}
