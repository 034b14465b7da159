/** One end of a TCP connection, with the partial send and receive loops of src/net/tcp_socket.cpp. */
module TcpSocket {
  import opened Base

  const INT_MAX: nat := 0x7fff_ffff

  class TcpSocket {
    var open: bool
    /** Bytes the peer has sent and this side has not yet read. */
    var inbound: Bytes
    /** Bytes handed over to the connection. */
    var outbound: Bytes
    /** A system call failed although it could have gone on: the connection is disturbed, not merely finished. */
    var faulty: bool

    constructor (inbound: Bytes)
      ensures open && !faulty && this.inbound == inbound && outbound == []
    {
      open, faulty := true, false;
      this.inbound, outbound := inbound, [];
    }

    /** ::send: an error (-1), a closed connection (0), or any positive number of the bytes. */
    method Send(data: Bytes) returns (sent: int)
      requires data != []
      modifies `outbound, `faulty
      ensures -1 <= sent <= |data|
      ensures sent <= 0 ==> faulty && outbound == old(outbound)
      ensures sent > 0 ==> faulty == old(faulty) && outbound == old(outbound) + data[..sent]
    {
      sent :| -1 <= sent <= |data|;
      if sent <= 0 {
        faulty := true;
      } else {
        outbound := outbound + data[..sent];
      }
    }

    /** ::recv: an error (-1), a closed connection (0), or any positive number of arrived bytes up to `size`. */
    method Recv(size: nat) returns (received: int, data: Bytes)
      requires size > 0
      modifies `inbound, `faulty
      ensures -1 <= received <= size
      ensures received <= 0 ==> inbound == old(inbound) && (inbound != [] ==> faulty)
      ensures received > 0 ==>
                faulty == old(faulty) && received <= |old(inbound)| &&
                data == old(inbound)[..received] && inbound == old(inbound)[received..]
    {
      data := [];
      received :| -1 <= received <= size && received <= |inbound|;
      if received <= 0 {
        if inbound != [] {
          faulty := true;
        }
      } else {
        data, inbound := inbound[..received], inbound[received..];
      }
    }

    /** However the bytes are cut up, all of them go out in order, unless a call fails. */
    method SendAll(data: Bytes) returns (ok: bool)
      modifies `outbound, `faulty
      ensures old(outbound) <= outbound <= old(outbound) + data
      ensures ok ==> outbound == old(outbound) + data && faulty == old(faulty)
      ensures !ok ==> !open || faulty
    {
      if !open {
        return false;
      }
      var total := 0;
      while total < |data|
        invariant 0 <= total <= |data|
        invariant outbound == old(outbound) + data[..total]
        invariant faulty == old(faulty)
        decreases |data| - total
      {
        var size := Min(|data| - total, INT_MAX);
        var sent := Send(data[total..total + size]);
        if sent <= 0 {
          return false;
        }
        assert data[..total] + data[total..total + size][..sent] == data[..total + sent];
        total := total + sent;
      }
      return true;
    }

    /** Exactly `size` bytes are taken off the stream in order, unless a call fails. */
    method RecvExact(size: nat) returns (ok: bool, data: Bytes)
      modifies `inbound, `faulty
      ensures ok ==> size <= |old(inbound)| && data == old(inbound)[..size] && inbound == old(inbound)[size..]
      ensures ok ==> faulty == old(faulty)
      ensures !ok ==> !open || faulty || |old(inbound)| < size
    {
      data := [];
      if !open {
        return false, data;
      }
      while |data| < size
        invariant |data| <= size && |data| <= |old(inbound)|
        invariant data == old(inbound)[..|data|] && inbound == old(inbound)[|data|..]
        invariant faulty == old(faulty)
        decreases size - |data|
      {
        var received, more := Recv(Min(size - |data|, INT_MAX));
        if received <= 0 {
          return false, data;
        }
        data := data + more;
      }
      return true, data;
    }

    /** The peer's bytes arrive. */
    method Deliver(bytes: Bytes)
      modifies `inbound
      ensures inbound == old(inbound) + bytes
    {
      inbound := inbound + bytes;
    }
  }
}
