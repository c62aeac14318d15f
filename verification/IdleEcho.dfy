/**
 * Two peers with no transfer between them: apps/desktop/src/file_transfer.rs:460-500.
 *
 * An idle peer answers every transfer message it does not expect, a Cancel
 * included, with a Cancel of its own.
 */
module IdleEcho {

  /**
   * `Mentions` is an Accept, Reject, Complete, Chunk, Checkpoint or Ack; `Unanswered` is every other kind,
   * which an idle peer drops.  An Offer starts a transfer, so neither peer would be idle any more.
   */
  datatype Message = Mentions(id: nat) | Cancel(id: nat) | Unanswered

  /** What each of the two idle peers has still to read. */
  datatype Idle = Idle(left: seq<Message>, right: seq<Message>)

  function Answer(message: Message): seq<Message> {
    match message
    case Mentions(id) => [Cancel(id)]
    case Cancel(id) => [Cancel(id)]
    case Unanswered => []
  }

  function Step(s: Idle, leftReads: bool): Idle {
    if leftReads then
      if s.left == [] then s else Idle(s.left[1..], s.right + Answer(s.left[0]))
    else
      if s.right == [] then s else Idle(s.left + Answer(s.right[0]), s.right[1..])
  }

  function Run(s: Idle, schedule: seq<bool>): Idle
    decreases |schedule|
  {
    if schedule == [] then s else Step(Run(s, schedule[..|schedule| - 1]), schedule[|schedule| - 1])
  }

  /** The messages that will be answered. */
  function Answerable(messages: seq<Message>): nat {
    if messages == [] then 0 else (if messages[0].Unanswered? then 0 else 1) + Answerable(messages[1..])
  }

  lemma {:induction false} AnswerableAppend(a: seq<Message>, b: seq<Message>)
    ensures Answerable(a + b) == Answerable(a) + Answerable(b)
  {
    if a == [] {
      assert a + b == b;
    } else {
      AnswerableAppend(a[1..], b);
      assert (a + b)[1..] == a[1..] + b;
    }
  }

  lemma StepConserves(s: Idle, leftReads: bool)
    ensures var s' := Step(s, leftReads);
              Answerable(s'.left) + Answerable(s'.right) == Answerable(s.left) + Answerable(s.right)
  {
    if leftReads && s.left != [] {
      AnswerableAppend(s.right, Answer(s.left[0]));
      assert Answerable(Answer(s.left[0])) == if s.left[0].Unanswered? then 0 else 1;
    }
    if !leftReads && s.right != [] {
      AnswerableAppend(s.left, Answer(s.right[0]));
      assert Answerable(Answer(s.right[0])) == if s.right[0].Unanswered? then 0 else 1;
    }
  }

  /**
   * While both peers stay idle the number of answerable messages in flight never changes: one stray message
   * is echoed for as long as the connection lasts, and the connection is quiet only if there never was one.
   */
  lemma {:induction false} EchoNeverDies(s: Idle, schedule: seq<bool>)
    ensures var s' := Run(s, schedule);
            && Answerable(s'.left) + Answerable(s'.right) == Answerable(s.left) + Answerable(s.right)
            && (s'.left == [] && s'.right == [] ==> Answerable(s.left) == 0 && Answerable(s.right) == 0)
    decreases |schedule|
  {
    if schedule != [] {
      EchoNeverDies(s, schedule[..|schedule| - 1]);
      StepConserves(Run(s, schedule[..|schedule| - 1]), schedule[|schedule| - 1]);
    }
  }
}
