/** How the library spells segment identifiers: random POSIX shm names
    `/shmem_<HEX>`, and tmpfs backing files `<base_dir>/shmem_<id>`. */
module Naming {
  import opened ShmErrors

  const HexDigits: string := "0123456789ABCDEF"

  /** `format!("{:X}", n)`: upper-case hexadecimal, no leading zeros. */
  function Hex(n: nat): (r: string)
    ensures |r| >= 1
    ensures forall i :: 0 <= i < |r| ==> r[i] in HexDigits
    ensures n >= 16 ==> r[0] != '0'
  {
    if n < 16 then [HexDigits[n]] else Hex(n / 16) + [HexDigits[n % 16]]
  }

  /** Value of one upper-case hexadecimal digit. */
  function DigitValue(c: char): (d: nat)
    ensures d < 16
    ensures c in HexDigits ==> HexDigits[d] == c
  {
    if '0' <= c <= '9' then c as int - '0' as int
    else if 'A' <= c <= 'F' then c as int - 'A' as int + 10
    else 0
  }

  /** Reads a hexadecimal numeral back. */
  function ParseHex(s: string): nat
  {
    if s == [] then 0 else ParseHex(s[..|s| - 1]) * 16 + DigitValue(s[|s| - 1])
  }

  lemma DigitValueOf(d: nat)
    requires d < 16
    ensures DigitValue(HexDigits[d]) == d
  {
  }

  lemma {:induction false} ParseHexOfHex(n: nat)
    ensures ParseHex(Hex(n)) == n
  {
    if n < 16 {
      DigitValueOf(n);
      assert Hex(n)[..0] == [];
    } else {
      var h := Hex(n);
      assert h[..|h| - 1] == Hex(n / 16);
      DigitValueOf(n % 16);
      ParseHexOfHex(n / 16);
    }
  }

  /** Distinct random values give distinct hexadecimal names. */
  lemma HexInjective(a: nat, b: nat)
    ensures Hex(a) == Hex(b) ==> a == b
  {
    ParseHexOfHex(a);
    ParseHexOfHex(b);
  }

  /** Number of occurrences of `c` in `s`. */
  function Count(s: string, c: char): nat
  {
    if s == [] then 0 else (if s[0] == c then 1 else 0) + Count(s[1..], c)
  }

  lemma {:induction false} CountConcat(a: string, b: string, c: char)
    ensures Count(a + b, c) == Count(a, c) + Count(b, c)
  {
    if a != [] {
      assert (a + b)[1..] == a[1..] + b;
      CountConcat(a[1..], b, c);
    } else {
      assert a + b == b;
    }
  }

  lemma {:induction false} CountAbsent(s: string, c: char)
    requires forall i :: 0 <= i < |s| ==> s[i] != c
    ensures Count(s, c) == 0
  {
    if s != [] {
      CountAbsent(s[1..], c);
    }
  }

  /** The shm_open name tried for random value `n` (lib.rs:197). */
  function RandomShmId(n: U64): string
  {
    "/shmem_" + Hex(n)
  }

  /** A random shm name starts with '/' and holds no other '/', as POSIX
      asks of portable shm_open names; distinct values give distinct names. */
  lemma RandomShmIdShape(n: U64, m: U64)
    ensures RandomShmId(n)[0] == '/' && Count(RandomShmId(n), '/') == 1
    ensures RandomShmId(n) == RandomShmId(m) ==> n == m
  {
    CountConcat("/shmem_", Hex(n), '/');
    assert Count("/shmem_", '/') == 1;
    CountAbsent(Hex(n), '/');
    if RandomShmId(n) == RandomShmId(m) {
      assert Hex(n) == RandomShmId(n)[7..] == RandomShmId(m)[7..] == Hex(m);
      HexInjective(n, m);
    }
  }

  /** `PathBuf::join` of one component on Unix: an absolute component replaces
      the base; otherwise a '/' is put between them unless the base is empty
      or already ends with one. */
  function Join(base: string, name: string): (r: string)
  {
    if |name| > 0 && name[0] == '/' then name
    else if base == [] || base[|base| - 1] == '/' then base + name
    else base + "/" + name
  }

  /** Separator Join puts after a base it extends. */
  function Sep(base: string): string
  {
    if base == [] || base[|base| - 1] == '/' then "" else "/"
  }

  /** The tmpfs backing file for identifier `id` under `base` (lib.rs:142, 145). */
  function TmpfsPath(base: string, id: string): (r: string)
    ensures r == base + Sep(base) + "shmem_" + id
  {
    Join(base, "shmem_" + id)
  }

  /** The backing file lies in the base directory, and different identifiers
      under one base never share a backing file. */
  lemma TmpfsPathInjective(base: string, a: string, b: string)
    ensures base <= TmpfsPath(base, a)
    ensures TmpfsPath(base, a) == TmpfsPath(base, b) ==> a == b
  {
    var k := |base + Sep(base) + "shmem_"|;
    if TmpfsPath(base, a) == TmpfsPath(base, b) {
      assert a == TmpfsPath(base, a)[k..] == TmpfsPath(base, b)[k..] == b;
    }
  }
}
