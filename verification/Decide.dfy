/** internal/gateway/decide.go: trust, then policy; shared by TCP and UDP. */
module Deciding {
  import opened Net
  import opened ProxyProto
  import opened Trust

  datatype Policy = Use | Require | Reject

  datatype UntrustedAction = UntrustedReject | UntrustedStrip

  datatype Reason = NoReason | Untrusted | Strip | PolicyForbids | PolicyRequires

  datatype Decision = Decision(hdr: Header, src: Source, allow: bool, reason: Reason)

  /** transport.RemoteIP. */
  function RemoteIP(remote: NetAddr): IP {
    if remote.OtherAddr? then NilIP else remote.ip
  }

  function Decide(policy: Policy, trust: TrustChecker, untrusted: UntrustedAction,
                  src: Source, hdr: Header, ip: IP, remote: NetAddr, local: NetAddr): Decision
  {
    var distrusted := src != Direct && !Trusts(trust, ip);
    if distrusted && untrusted == UntrustedReject then Decision(hdr, src, false, Untrusted)
    else
      var reason := if distrusted then Strip else NoReason;
      var src' := if distrusted then Direct else src;
      var hdr' := if distrusted then HeaderFromAddrs(remote, local) else hdr;
      if policy == Reject && src' != Direct then Decision(hdr', src', false, PolicyForbids)
      else if policy == Require && src' == Direct then Decision(hdr', src', false, PolicyRequires)
      else Decision(if src' == Direct then HeaderFromAddrs(remote, local) else hdr', src', true, reason)
  }

  /** Exactly when a peer gets through, with which header, and the reason that is logged. */
  lemma DecideExact(policy: Policy, trust: TrustChecker, untrusted: UntrustedAction,
                    src: Source, hdr: Header, ip: IP, remote: NetAddr, local: NetAddr)
    ensures var d := Decide(policy, trust, untrusted, src, hdr, ip, remote, local);
      var vouched := src != Direct && Trusts(trust, ip);
      && (d.allow <==> if vouched then policy != Reject
                       else policy != Require && (src == Direct || untrusted == UntrustedStrip))
      && (d.allow ==> (d.hdr, d.src) == if vouched then (hdr, src) else (HeaderFromAddrs(remote, local), Direct))
      && (src != Direct && !vouched && untrusted == UntrustedStrip ==>
            (d.hdr, d.src) == (HeaderFromAddrs(remote, local), Direct))
      && (d.reason == Untrusted <==> src != Direct && !vouched && untrusted == UntrustedReject)
      && (d.reason == PolicyForbids <==> policy == Reject && vouched)
      && (d.reason == PolicyRequires <==> !d.allow && policy == Require && d.reason != Untrusted)
      && (d.reason == Strip <==> d.allow && src != Direct && !vouched)
  {}

  /** What an untrusted peer claims is never read. */
  lemma ClaimsUnread(policy: Policy, trust: TrustChecker, untrusted: UntrustedAction,
                     src: Source, h1: Header, h2: Header, ip: IP, remote: NetAddr, local: NetAddr)
    requires src != Direct && !Trusts(trust, ip)
    ensures var d1 := Decide(policy, trust, untrusted, src, h1, ip, remote, local);
      var d2 := Decide(policy, trust, untrusted, src, h2, ip, remote, local);
      d1.allow == d2.allow && d1.src == d2.src && d1.reason == d2.reason && (d1.allow ==> d1 == d2)
  {}
}
