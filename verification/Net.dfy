/** The parts of Go's package net that the gateway relies on: IP forms and network addresses. */
module Net {
  import opened Basics

  // net.IP: a nil slice, or a slice of any length (4 and 16 are the valid ones).
  datatype IP = NilIP | Addr(bytes: seq<byte>)

  // net.UDPAddr and net.TCPAddr; any other implementation of net.Addr.
  datatype NetAddr =
    | UDPAddr(ip: IP, port: int, zone: string)
    | TCPAddr(ip: IP, port: int, zone: string)
    | OtherAddr

  const MAPPED_PREFIX: seq<byte> := [0, 0, 0, 0, 0, 0, 0, 0, 0, 0, 255, 255]

  // net.IPv4zero, which Go holds in 16-byte form.
  const IPV4_ZERO: IP := Addr(MAPPED_PREFIX + [0, 0, 0, 0])

  function Raw(ip: IP): seq<byte> {
    if ip.NilIP? then [] else ip.bytes
  }

  predicate IsMapped(b: seq<byte>) {
    |b| == 16 && b[..12] == MAPPED_PREFIX
  }

  function To4(ip: IP): (r: IP)
    ensures r.Addr? ==> |r.bytes| == 4
  {
    var b := Raw(ip);
    if |b| == 4 then ip
    else if IsMapped(b) then Addr(b[12..])
    else NilIP
  }

  function To16(ip: IP): (r: IP)
    ensures r.Addr? ==> |r.bytes| == 16
  {
    var b := Raw(ip);
    if |b| == 4 then Addr(MAPPED_PREFIX + b)
    else if |b| == 16 then ip
    else NilIP
  }

  predicate IsV4(ip: IP) { To4(ip).Addr? }
  predicate IsValid(ip: IP) { To16(ip).Addr? }
  predicate IsV6(ip: IP) { IsValid(ip) && !IsV4(ip) }

  /** Both forms of an IPv4 address have the same 4-byte and 16-byte normal forms. */
  lemma NormalForms(ip: IP)
    ensures To16(To16(ip)) == To16(ip)
    ensures To4(To16(ip)) == To4(ip)
    ensures IsV4(ip) ==> To16(To4(ip)) == To16(ip) && IsValid(ip)
  {
    var b := Raw(ip);
    if |b| == 4 {
      var m := MAPPED_PREFIX + b;
      assert m[..12] == MAPPED_PREFIX && m[12..] == b;
    } else if IsMapped(b) {
      assert b == MAPPED_PREFIX + b[12..];
    }
  }

  /** Equal 16-byte forms mean equal 4-byte forms: nothing is lost by canonicalising. */
  lemma SameTo16(a: IP, b: IP)
    requires To16(a) == To16(b) && IsValid(a)
    ensures To4(a) == To4(b)
  {
    NormalForms(a);
    NormalForms(b);
  }
}
