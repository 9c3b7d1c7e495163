/** The agent's event loop around a FileTransfer object: events are handled as they come, and each
    round cancels if it is time to, ticks, and then polls the clipboard. */
module TransferAgent {
  import opened Bytes
  import opened FileProtocol
  import opened TransferSpec
  import opened PeerRuns
  import opened SendRuns
  import opened TransferObjects

  /** The object is intact, its state meets the invariant that every run keeps, and no accepted
      send is lost. */
  ghost predicate Sound(ft: FileTransfer)
    reads ft, ft.send, ft.footprint
  {
    ft.Valid() && PeerInv(ft.View()) && Conserved(ft.View().out)
  }

  /** `handle_event` for the "file" channel. */
  method HandleEvent(ft: FileTransfer, m: Message, ep: Endpoint, env: Env)
    requires Sound(ft) && ep !in ft.footprint && Covers(env.order, ft.completed.Keys)
    modifies ft, ft.send, ft.footprint, ep
    ensures Sound(ft) && fresh(ft.footprint - old(ft.footprint))
    ensures ft.View() == HandleData(old(ft.View()), m, old(ep.View()), env).0
  {
    hide PeerInv, Conserved, TransferSpec.HandleData;
    HandleDataKeeps(ft.View(), m, ep.View(), env);
    ft.HandleData(m, ep, env);
  }

  lemma Shaped(p: Peer)
    requires PeerInv(p)
    ensures p.out.send.Some? ==> SndShape(p.out.send.value)
  {
  }

  /** What the sending side of a peer must satisfy for a clipboard image to lose nothing. */
  lemma ImageKeeps(p: Peer, png: seq<byte>, env: Env)
    requires PeerInv(p) && Conserved(p.out) && (p.out.send.Some? ==> !p.out.send.value.failed)
    ensures PeerInv(SendImage(p, png, env).0) && Conserved(SendImage(p, png, env).0.out)
  {
    SendImageKeeps(p, png, env);
    if SendImage(p, png, env).1 {
      SendImageConservesIff(p, png, env);
    }
  }

  method CancelActive(ft: FileTransfer, ep: Endpoint, env: Env)
    requires Sound(ft) && ep !in ft.footprint
    modifies ft, ft.send, ft.footprint, ep
    ensures Sound(ft) && ft.footprint == old(ft.footprint)
    ensures ft.send == old(ft.send) || ft.send == null || fresh(ft.send)
    ensures ft.View() == CancelSend(old(ft.View()), old(ep.View()), env).0
  {
    hide PeerInv, Conserved, TransferSpec.CancelSend;
    ghost var p := ft.View();
    CancelSendKeeps(p, ep.View(), env);
    ft.CancelSend(ep, env);
  }

  method TickOnce(ft: FileTransfer, ep: Endpoint, env: Env)
    requires Sound(ft) && ep !in ft.footprint
    modifies ft, ft.send, ft.footprint, ep
    ensures Sound(ft) && ft.footprint <= old(ft.footprint)
    ensures ft.send == old(ft.send) || ft.send == null || fresh(ft.send)
    ensures ft.send != null ==> !ft.send.failed
  {
    hide PeerInv, Conserved, TransferSpec.Tick;
    Shaped(ft.View());
    TickKeeps(ft.View(), ep.View(), env);
    ft.Tick(ep, env);
  }

  method PollClipboard(ft: FileTransfer, png: seq<byte>, env: Env)
    requires Sound(ft) && (ft.send != null ==> !ft.send.failed)
    modifies ft
    ensures Sound(ft) && ft.footprint == old(ft.footprint)
  {
    hide PeerInv, Conserved, SendImage;
    ImageKeeps(ft.View(), png, env);
    var _ := ft.SendClipboardImage(png, env);
  }

  /** One round of the agent: in its order of calls the object stays sound, so no accepted send is
      ever lost, whatever image the clipboard offers. */
  method AgentRound(ft: FileTransfer, ep: Endpoint, cancel: bool, image: Option<seq<byte>>, env: Env)
    requires Sound(ft) && ep !in ft.footprint
    modifies ft, ft.send, ft.footprint, ep
    ensures Sound(ft) && ft.footprint <= old(ft.footprint)
  {
    hide Sound;
    if cancel {
      CancelActive(ft, ep, env);
    }
    TickOnce(ft, ep, env);
    if image.Some? {
      PollClipboard(ft, image.value, env);
    }
  }
}
