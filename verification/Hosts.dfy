/** The hypotheses about the host can all be met at once: no result here is empty. */
module Hosts {
  import opened Numerals
  import opened Canonical
  import opened Domain
  import opened Ledger
  import opened Replay

  function Numbered(n: int): string {
    if n < 0 then "-" + Digits(0 - n) else Digits(n)
  }

  function ReadNumber(s: string): int {
    if s != [] && s[0] == '-' && AllDigits(s[1..]) then 0 - Numerals.Value(s[1..])
    else if AllDigits(s) then Numerals.Value(s)
    else 0
  }

  lemma ReadsNumbered(n: int)
    ensures ReadNumber(Numbered(n)) == n
  {
    if n < 0 {
      ValueOfDigits(0 - n);
      assert Numbered(n)[1..] == Digits(0 - n);
    } else {
      ValueOfDigits(n);
    }
  }

  function PlainHost(): Host {
    Host((t: string) => "#" + t, (s: string, t: string) => t, (d: int) => Numbered(d), (t: int) => Numbered(t))
  }

  function PlainReader(): IsoReader {
    IsoReader((s: string) => ReadNumber(s), (s: string) => ReadNumber(s))
  }

  lemma PlainHashBinds()
    ensures CollisionFree(PlainHost().sha) && DigestShape(PlainHost())
  {
    forall a: string, b: string | PlainHost().sha(a) == PlainHost().sha(b) ensures a == b {
      assert ("#" + a)[1..] == a && ("#" + b)[1..] == b;
    }
    forall t: string ensures PlainHost().sha(t) != "" && PlainHost().sha(t) != GENESIS {
      assert PlainHost().sha(t)[0] == '#';
    }
  }

  /** One host with every property assumed of hosts, and a reader of its ISO texts. */
  lemma HypothesesCanBeMet() returns (host: Host, reader: IsoReader)
    ensures host.Sound() && DigestShape(host) && reader.Reads(host)
  {
    host, reader := PlainHost(), PlainReader();
    PlainHashBinds();
    forall n: int ensures ReadNumber(Numbered(n)) == n {
      ReadsNumbered(n);
    }
  }
}
