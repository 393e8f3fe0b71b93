/** What a client reads in the end, from the servers' devices to its own buffer. */
module ClientRead {
  import opened Fabric
  import opened Aggregation
  import opened Protocol
  import opened ProtocolAsks
  import opened ProtocolTheorems
  import C = ClientRequest

  /** After any run, and after any replies of which the answer to action i's request is the
      last that writes row g of the buffer: the cell of group g and attribute c holds the sum
      over the group's names of what each source answered. */
  lemma ClientReadsSum(w: World, nets: seq<Net>, acts: seq<Action>, n: nat, i: nat, f: nat, g: nat, c: nat, ans: Addr -> real,
                       v: C.View, evs: seq<C.Reply>, k: nat, table: map<nat, C.CommReq>)
    requires IsRun(w, nets, acts) && n <= |acts| && FirstUse(acts, f, i) && At(nets[n].answers, TicketOf(acts, i)) != []
    requires acts[i].op == Get && g < |acts[f].members| && c < |acts[i].ops|
    requires Answering(nets, acts, n, TicketOf(acts, i), g, c, ans)
    requires (forall ev :: ev in evs ==> ev.id in table) && k < |evs| && table[evs[k].id].get
    requires evs[k] == C.ReplyOf(evs[k].id, At(nets[n].answers, TicketOf(acts, i))[0].info.resp) && C.Fits(v, true, evs[k])
    requires forall l :: k < l < |evs| ==> !C.Writes(v, table[evs[l].id].get, evs[l], g, c)
    ensures g < |v.value| && c < |v.value[g]|
    ensures C.After(v, evs, table).value[g][c] == SumOver(ans, acts[f].members[g])
  {
    AnswerIsGroupSum(w, nets, acts, n, i, f, g, c, ans);
    assert g < |evs[k].value| && c < |evs[k].value[g]| <= |v.value[g]|;
    C.LastWriter(v, evs, table, g, c);
    assert C.IsLastWriter(v, evs, table, g, c, k);
  }
}
