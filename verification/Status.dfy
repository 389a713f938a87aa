/** The status of a connection, which is only ever lowered. */
module Status {

  // conn_status
  const DEAD: nat := 0
  const CLIENT_DONE: nat := 1
  const SHUTDOWN: nat := 2
  const ACTIVE: nat := 3

  function Lowered(status: nat, value: nat): nat { if value < status then value else status }

  class Connection {
    var status: nat
    var notified: nat // bytes written to the status pipe
    const workers: nat

    constructor (workers: nat)
      ensures status == ACTIVE && notified == 0 && this.workers == workers
    {
      status, notified, this.workers := ACTIVE, 0, workers;
    }

    // connection_set_status, which runs under the status lock
    method SetStatus(value: nat) returns (shutdown: bool)
      modifies this
      ensures status == Lowered(old(status), value)
      ensures shutdown <==> old(status) >= CLIENT_DONE && status == DEAD
      ensures notified == old(notified) + if workers > 0 && old(status) > CLIENT_DONE >= status then 1 else 0
    {
      shutdown := false;
      if value < status {
        if workers > 0 && status > CLIENT_DONE && value <= CLIENT_DONE {
          notified := notified + 1;
        }
        if status >= CLIENT_DONE && value < CLIENT_DONE {
          shutdown := true;
        }
        status := value;
      }
    }

    // Any sequence of calls, from whatever threads: exactly one of them tells its caller
    // to shut down if one of the values is DEAD, and otherwise none does; the other
    // workers are woken at most once.
    method SetAll(values: seq<nat>) returns (shutdowns: seq<bool>)
      modifies this
      ensures |shutdowns| == |values|
      ensures forall i, j :: 0 <= i < j < |values| ==> !(shutdowns[i] && shutdowns[j])
      ensures (exists i :: 0 <= i < |values| && shutdowns[i]) <==> old(status) >= CLIENT_DONE && DEAD in values
      ensures forall i :: 0 <= i < |values| && shutdowns[i] ==> values[i] == DEAD && DEAD !in values[..i]
      ensures notified <= old(notified) + 1
    {
      shutdowns := [];
      var n := 0;
      while n < |values|
        invariant n == |shutdowns| <= |values|
        invariant status <= old(status)
        invariant status == DEAD <==> old(status) == DEAD || DEAD in values[..n]
        invariant forall i, j :: 0 <= i < j < n ==> !(shutdowns[i] && shutdowns[j])
        invariant forall i :: 0 <= i < n && shutdowns[i] ==> values[i] == DEAD && DEAD !in values[..i]
        invariant forall i :: 0 <= i < n && shutdowns[i] ==> status == DEAD && old(status) >= CLIENT_DONE
        invariant old(status) >= CLIENT_DONE && status == DEAD ==> exists i :: 0 <= i < n && shutdowns[i]
        invariant notified <= old(notified) + 1 && (notified > old(notified) ==> status <= CLIENT_DONE)
      {
        var shutdown := SetStatus(values[n]);
        assert values[..n + 1] == values[..n] + [values[n]];
        ghost var before := shutdowns;
        shutdowns := shutdowns + [shutdown];
        assert shutdowns[n] == shutdown;
        assert forall i :: 0 <= i < n ==> shutdowns[i] == before[i];
        n := n + 1;
      }
      assert values[..n] == values;
    }
  }
}
