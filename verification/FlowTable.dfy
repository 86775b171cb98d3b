/** The flow keys of onvm/onvm_nflib/onvm_flow_table.h. */
module FlowTable {
  const TCP: nat := 6
  const UDP: nat := 17

  datatype Key = Key(srcAddr: nat, dstAddr: nat, srcPort: nat, dstPort: nat, proto: nat)

  // What the network functions read and rewrite of a packet; port is where it came in.
  datatype Packet = Packet(port: nat, isIpv4: bool, srcMac: nat, dstMac: nat, srcAddr: nat, dstAddr: nat, proto: nat,
                           srcPort: nat, dstPort: nat)

  // Ports count for TCP and UDP only.
  function FillKey(p: Packet): Key {
    if p.proto == TCP || p.proto == UDP then Key(p.srcAddr, p.dstAddr, p.srcPort, p.dstPort, p.proto)
    else Key(p.srcAddr, p.dstAddr, 0, 0, p.proto)
  }

  // Addresses and ports are put in order, each pair on its own.
  function SymmetricKey(p: Packet): Key {
    var k := FillKey(p);
    var j := if k.dstAddr > k.srcAddr then k.(srcAddr := k.dstAddr, dstAddr := k.srcAddr) else k;
    if j.dstPort > j.srcPort then j.(srcPort := j.dstPort, dstPort := j.srcPort) else j
  }
}
