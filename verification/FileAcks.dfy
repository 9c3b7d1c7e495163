/** Replies: a delivered message causes at most one immediate reply, and chains of replies end. */
module FileAcks {
  import opened Bytes
  import opened FileProtocol
  import opened TransferSpec
  import opened PeerRuns
  import opened FileNetwork

  /** What `p` sends at once on receiving `m`. */
  ghost function Replies(p: Peer, m: Message, verdicts: seq<bool>, env: Env): seq<Message> {
    HandleData(p, m, Channel([], verdicts), env).1.sent
  }

  /** Only a positive Done is ever answered, with one message at most: a Nack or a Done for the
      same id; a positive answer is only given for an id of which a buffer is or was held. */
  lemma ReplyShape(p: Peer, m: Message, verdicts: seq<bool>, env: Env)
    ensures |Replies(p, m, verdicts, env)| <= 1
    ensures Replies(p, m, verdicts, env) != [] ==>
              && m.Done? && m.ok && !(p.out.send.Some? && p.out.send.value.id == m.id)
              && var a := Replies(p, m, verdicts, env)[0];
              (a.Nack? && a.id == m.id && m.id in p.inc.recv)
              || (a.Done? && a.id == m.id && (a.ok <==> (m.id in p.inc.recv || m.id in p.inc.completed)))
  {
  }

  /** Each side only holds buffers and acknowledgements for ids of the other side. */
  lemma HoldsForeignIds(p: Peer, q: Peer, net: set<Message>, id: Id)
    requires PeerInv(p) && PeerInv(q) && p.tag != q.tag && Half(p, q, net)
    requires id in q.inc.recv || id in q.inc.completed
    ensures id.peer == p.tag
  {
    if id in q.inc.completed {
      var n :| 0 <= n < |q.inc.commits| && q.inc.commits[n].id == id;
      assert q.inc.commits[n].id in Origins(p.out.trace);
    }
  }

  /** `messages[k + 1]` is a reply to `messages[k]`, given in any reachable state of the two
      peers; the first message is delivered to `q`. Anything may happen in between. */
  ghost predicate ReplyChain(ws: seq<World>, messages: seq<Message>) {
    && |ws| == |messages| - 1
    && (forall k :: 0 <= k < |ws| ==> WorldInv(ws[k]) && ws[k].p.tag == ws[0].p.tag && ws[k].q.tag == ws[0].q.tag)
    && (forall k :: 0 <= k < |ws| ==> Answers(if k % 2 == 0 then ws[k].q else ws[k].p, messages[k], messages[k + 1]))
  }

  ghost predicate Answers(p: Peer, m: Message, answer: Message) {
    exists verdicts, env :: answer in Replies(p, m, verdicts, env)
  }

  lemma AnswerShape(p: Peer, m: Message, answer: Message)
    requires Answers(p, m, answer)
    ensures m.Done? && m.ok && !(p.out.send.Some? && p.out.send.value.id == m.id)
    ensures (answer.Nack? && answer.id == m.id)
         || (answer.Done? && answer.id == m.id && (answer.ok <==> (m.id in p.inc.recv || m.id in p.inc.completed)))
  {
    var verdicts, env :| answer in Replies(p, m, verdicts, env);
    ReplyShape(p, m, verdicts, env);
  }

  /** Acknowledgements never echo: a chain of replies has at most three messages. */
  lemma ChainsAreShort(ws: seq<World>, messages: seq<Message>)
    requires ReplyChain(ws, messages)
    ensures |messages| <= 3
  {
    hide PeerInv, Half, Answers;
    if |messages| > 3 {
      assert Answers(ws[0].q, messages[0], messages[1]);
      assert Answers(ws[1].p, messages[1], messages[2]);
      assert Answers(ws[2].q, messages[2], messages[3]);
      AnswerShape(ws[0].q, messages[0], messages[1]);
      AnswerShape(ws[1].p, messages[1], messages[2]);
      AnswerShape(ws[2].q, messages[2], messages[3]);
      // three positive Done messages in a row: both sides hold the id, so it belongs to both
      var id := messages[0].id;
      HoldsForeignIds(ws[0].p, ws[0].q, ws[0].pq, id);
      HoldsForeignIds(ws[1].q, ws[1].p, ws[1].qp, id);
    }
  }

  /** The bound is reached: a finished send is acknowledged, the acknowledgement comes back after
      the sender has moved on, is refused, and the refusal is not answered. */
  lemma ThreeIsReached(p: Peer, q: Peer, id: Id, env: Env)
    requires p.out.send.None? && q.out.send.None?
    requires id in q.inc.completed && id !in q.inc.recv && id !in p.inc.recv && id !in p.inc.completed
    ensures Replies(q, Done(id, true), [true], env) == [Done(id, true)]
    ensures Replies(p, Done(id, true), [true], env) == [Done(id, false)]
    ensures Replies(q, Done(id, false), [true], env) == []
  {
  }
}
