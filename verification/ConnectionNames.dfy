/**
 The names TcpServer::handleNewConn gives connections: the server's name, then what
 snprintf(buf, 64, "-%s#%d", ipPort, n) leaves in the buffer.
 */
module ConnectionNames {
  import opened Seqs

  const BUFFER_SIZE: nat := 64
  const INET6_ADDRSTRLEN: nat := 46
  // a longest address, a colon, and five digits
  const MAX_ADDRESS: nat := 51
  const INT_MAX: nat := 0x7FFF_FFFF

  const DIGITS: string := "0123456789"

  function Decimal(n: nat): (s: string)
    ensures s != []
  {
    if n < 10 then [DIGITS[n]] else Decimal(n / 10) + [DIGITS[n % 10]]
  }

  // snprintf writes at most size - 1 characters before the terminator.
  function Truncate(s: string, size: nat): string
    requires size > 0
  {
    if |s| < size then s else s[..size - 1]
  }

  function Name(server: string, ipPort: string, n: nat): string {
    server + Truncate("-" + ipPort + "#" + Decimal(n), BUFFER_SIZE)
  }

  function Digit(c: char): nat {
    if '0' <= c <= '9' then (c - '0') as nat else 0
  }

  function Value(s: string): nat {
    if s == [] then 0 else 10 * Value(s[..|s| - 1]) + Digit(s[|s| - 1])
  }

  lemma DigitRoundTrip(d: nat)
    requires d < 10
    ensures Digit(DIGITS[d]) == d
  {
  }

  // Reading a decimal back gives the number, so different numbers are written differently.
  lemma {:induction false} DecimalRoundTrip(n: nat)
    ensures Value(Decimal(n)) == n
  {
    DigitRoundTrip(n % 10);
    if n < 10 {
      assert Decimal(n)[..0] == [];
    } else {
      DecimalRoundTrip(n / 10);
      assert Decimal(n)[..|Decimal(n)| - 1] == Decimal(n / 10);
    }
  }

  function Pow10(k: nat): nat {
    if k == 0 then 1 else 10 * Pow10(k - 1)
  }

  lemma {:induction false} DecimalLength(n: nat, k: nat)
    requires k > 0
    ensures |Decimal(n)| <= k <==> n < Pow10(k)
    decreases n
  {
    if k == 1 {
      assert Pow10(1) == 10;
    } else if n < 10 {
      PowPositive(k - 1);
    } else {
      DecimalLength(n / 10, k - 1);
    }
  }

  lemma PowPositive(k: nat)
    ensures Pow10(k) >= 1
  {
  }

  lemma TenDigits()
    ensures Pow10(10) == 10_000_000_000 && Pow10(9) == 1_000_000_000 && Pow10(8) == 100_000_000
  {
    assert Pow10(2) == 100 && Pow10(4) == 10_000 && Pow10(6) == 1_000_000;
  }

  predicate NamesDistinct(server: string, ipPort: string) {
    forall i: nat, j: nat :: 1 <= i < j <= INT_MAX ==> Name(server, ipPort, i) != Name(server, ipPort, j)
  }

  lemma ShortNamesDistinct(server: string, ipPort: string, i: nat, j: nat)
    requires |ipPort| <= MAX_ADDRESS && i != j && i <= INT_MAX && j <= INT_MAX
    ensures Name(server, ipPort, i) != Name(server, ipPort, j)
  {
    TenDigits();
    DecimalLength(i, 10);
    DecimalLength(j, 10);
    DecimalRoundTrip(i);
    DecimalRoundTrip(j);
    var head := "-" + ipPort + "#";
    SameTail(head, Decimal(i), Decimal(j));
    SameTail(server, head + Decimal(i), head + Decimal(j));
  }

  // What InetAddress::toIpPort makes of the text of an address and a port.
  function ToIpPort(ip: string, port: nat): string {
    ip + ":" + Decimal(port)
  }

  // Every address fits: inet_ntop's text is at most INET6_ADDRSTRLEN - 1 characters, a port is 16 bits.
  lemma AddressFits(ip: string, port: nat)
    requires |ip| < INET6_ADDRSTRLEN && port <= 0xFFFF
    ensures |ToIpPort(ip, port)| <= MAX_ADDRESS
  {
    DecimalLength(port, 5);
    assert Pow10(5) == 10 * Pow10(4) && Pow10(4) == 10 * Pow10(3) && Pow10(3) == 1000;
  }

  // Nothing longer would do: with such an address the tenth digit no longer fits.
  lemma LongNamesCollide(server: string, ipPort: string)
    requires |ipPort| > MAX_ADDRESS
    ensures Name(server, ipPort, 1_000_000_000) == Name(server, ipPort, 1_000_000_001)
  {
    TenDigits();
    var a, b := 1_000_000_000, 1_000_000_001;
    var head, d := "-" + ipPort + "#", Decimal(100_000_000);
    DecimalLength(100_000_000, 8);
    assert Decimal(a) == d + [DIGITS[0]] && Decimal(b) == d + [DIGITS[1]];
    CutBefore(head + d, [DIGITS[0]]);
    CutBefore(head + d, [DIGITS[1]]);
    assert head + Decimal(a) == head + d + [DIGITS[0]] && head + Decimal(b) == head + d + [DIGITS[1]];
  }

  lemma CutBefore(s: string, t: string)
    requires |s| >= BUFFER_SIZE - 1 && t != []
    ensures Truncate(s + t, BUFFER_SIZE) == s[..BUFFER_SIZE - 1]
  {
    assert (s + t)[..BUFFER_SIZE - 1] == s[..BUFFER_SIZE - 1];
  }

  // While the counter is a positive int, all names are distinct if and only if the printed address
  // has at most 51 characters, which is exactly the most that toIpPort can print.
  lemma NamesDistinctIff(server: string, ipPort: string)
    ensures NamesDistinct(server, ipPort) <==> |ipPort| <= MAX_ADDRESS
  {
    if |ipPort| <= MAX_ADDRESS {
      forall i: nat, j: nat | 1 <= i < j <= INT_MAX ensures Name(server, ipPort, i) != Name(server, ipPort, j) {
        ShortNamesDistinct(server, ipPort, i, j);
      }
    } else {
      LongNamesCollide(server, ipPort);
    }
  }

  // On every address the name is never cut: the server's name, a dash, the whole address, a hash sign and
  // all digits of the counter.
  lemma NameIsWhole(server: string, ip: string, port: nat, n: nat)
    requires |ip| < INET6_ADDRSTRLEN && port <= 0xFFFF && n <= INT_MAX
    ensures Name(server, ToIpPort(ip, port), n) == server + "-" + ip + ":" + Decimal(port) + "#" + Decimal(n)
  {
    TenDigits();
    DecimalLength(n, 10);
    AddressFits(ip, port);
    assert |"-" + ToIpPort(ip, port) + "#" + Decimal(n)| < BUFFER_SIZE;
    SixPieces(server, ip, Decimal(port), Decimal(n));
  }

  lemma SixPieces(server: string, ip: string, port: string, n: string)
    ensures server + ("-" + (ip + ":" + port) + "#" + n) == server + "-" + ip + ":" + port + "#" + n
  {
  }
}
