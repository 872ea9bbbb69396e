/** Memory tasks in a Redis stream: any number of consumers read, process, acknowledge, and put a
    failed task back or into the dead-letter stream. Each Redis call is one atomic step. */
module TaskStream {
  import opened Common

  /** A stream entry. `task` is the number of the publication it descends from; entries without a
      payload come from outside the code modelled here. */
  datatype Msg = Msg(task: nat, retryCount: nat, hasPayload: bool)

  /** Where a consumer stands with the message it read. */
  datatype Stage = Read | Failed | FailedAcked | Succeeded

  datatype Hold = Hold(msg: Msg, stage: Stage)

  /** `lost` holds the messages whose XADD failed; `runs` is the account of handler calls per task, with
      whether each succeeded. */
  datatype Sys = Sys(
    stream: seq<Msg>, consumers: seq<Option<Hold>>,
    done: seq<Msg>, dlq: seq<Msg>, dropped: seq<Msg>, lost: seq<Msg>,
    runs: seq<seq<bool>>)

  datatype Step =
    | Publish(hasPayload: bool)
    | Deliver(c: nat)
    | Process(c: nat, ok: bool)
    | Ack(c: nat)
    | Resolve(c: nat, addOk: bool)

  /** `adds`: XADD calls of a run succeed. */
  datatype Config = Config(maxRetries: nat, consumers: nat, adds: bool)

  /** NewWorker's default. */
  function MaxRetries(configured: int): (m: nat)
    ensures m > 0
  {
    if configured <= 0 then 3 else configured
  }

  function Start(cfg: Config): Sys {
    Sys([], seq(cfg.consumers, _ => None), [], [], [], [], [])
  }

  predicate Holds(s: Sys, c: nat, stage: Stage) {
    c < |s.consumers| && s.consumers[c].Some? && s.consumers[c].value.stage == stage
  }

  predicate Enabled(cfg: Config, s: Sys, step: Step) {
    match step
    case Publish(_) => true
    case Deliver(c) => c < |s.consumers| && s.consumers[c] == None && s.stream != []
    case Process(c, _) =>
      && Holds(s, c, Read) && s.consumers[c].value.msg.hasPayload
      && s.consumers[c].value.msg.task < |s.runs|
    case Ack(c) =>
      Holds(s, c, Failed) || Holds(s, c, Succeeded)
      || (Holds(s, c, Read) && !s.consumers[c].value.msg.hasPayload)
    case Resolve(c, addOk) => Holds(s, c, FailedAcked) && (cfg.adds ==> addOk)
  }

  function Put(s: Sys, c: nat, hold: Option<Hold>): Sys
    requires c < |s.consumers|
  {
    s.(consumers := s.consumers[c := hold])
  }

  function Apply(cfg: Config, s: Sys, step: Step): Sys
    requires Enabled(cfg, s, step)
  {
    match step
    case Publish(hasPayload) =>
      s.(stream := s.stream + [Msg(|s.runs|, 0, hasPayload)], runs := s.runs + [[]])
    case Deliver(c) => Put(s, c, Some(Hold(s.stream[0], Read))).(stream := s.stream[1..])
    case Process(c, ok) =>
      var msg := s.consumers[c].value.msg;
      Put(s, c, Some(Hold(msg, if ok then Succeeded else Failed)))
        .(runs := s.runs[msg.task := s.runs[msg.task] + [ok]])
    case Ack(c) =>
      var h := s.consumers[c].value;
      (match h.stage
       case Failed => Put(s, c, Some(h.(stage := FailedAcked)))
       case Succeeded => Put(s, c, None).(done := s.done + [h.msg])
       case _ => Put(s, c, None).(dropped := s.dropped + [h.msg]))
    case Resolve(c, addOk) =>
      var msg := s.consumers[c].value.msg;
      var t := Put(s, c, None);
      if !addOk then t.(lost := s.lost + [msg])
      else if msg.retryCount >= cfg.maxRetries then t.(dlq := s.dlq + [msg])
      else t.(stream := s.stream + [msg.(retryCount := msg.retryCount + 1)])
  }

  function After(cfg: Config, steps: seq<Step>): Option<Sys>
    decreases |steps|
  {
    if steps == [] then Some(Start(cfg))
    else
      match After(cfg, steps[..|steps| - 1])
      case None => None
      case Some(t) =>
        var step := steps[|steps| - 1];
        if Enabled(cfg, t, step) then Some(Apply(cfg, t, step)) else None
  }

  ghost predicate Reachable(cfg: Config, s: Sys) {
    exists steps :: After(cfg, steps) == Some(s)
  }

  lemma ReachableStep(cfg: Config, s: Sys, step: Step)
    requires Reachable(cfg, s) && Enabled(cfg, s, step)
    ensures Reachable(cfg, Apply(cfg, s, step))
  {
    var steps :| After(cfg, steps) == Some(s);
    assert (steps + [step])[..|steps|] == steps;
    assert After(cfg, steps + [step]) == Some(Apply(cfg, s, step));
  }
}
