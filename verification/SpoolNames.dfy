/** Segment file names.  The spool is read in the order of a plain string sort,
    so `seg-<ms padded to 13>-<serial padded to 4>.json` has to sort like the
    pair of numbers it encodes. */
module SpoolNames {
  import opened Decimals
  import opened Reporter

  function Zeros(n: nat): (s: string)
    ensures |s| == n
  {
    if n == 0 then "" else ['0'] + Zeros(n - 1)
  }

  /** JavaScript's `padStart(width, "0")`. */
  function PadStart(s: string, width: nat): string {
    if |s| >= width then s else Zeros(width - |s|) + s
  }

  function FileName(name: Name): string {
    Joined("seg-", PadStart(Decimal(name.ms), 13), "-", PadStart(Decimal(name.serial), 4), ".json")
  }

  function Joined(head: string, a: string, mid: string, x: string, tail: string): string {
    head + (a + (mid + (x + tail)))
  }

  function Pow10(n: nat): nat { if n == 0 then 1 else 10 * Pow10(n - 1) }

  /** `n` written with exactly `width` digits. */
  function Fixed(n: nat, width: nat): (s: string)
    ensures |s| == width
  {
    if width == 0 then "" else Fixed(n / 10, width - 1) + [DIGITS[n % 10]]
  }

  lemma {:induction false} FixedZero(width: nat)
    ensures Fixed(0, width) == Zeros(width)
  {
    if width > 0 {
      FixedZero(width - 1);
      ZerosSnoc(width - 1);
    }
  }

  lemma {:induction false} ZerosSnoc(n: nat)
    ensures Zeros(n) + ['0'] == Zeros(n + 1)
  {
    if n > 0 {
      ZerosSnoc(n - 1);
      assert Zeros(n) + ['0'] == ['0'] + (Zeros(n - 1) + ['0']);
    }
  }

  lemma {:induction false} PadIsFixed(n: nat, width: nat)
    requires 0 < width && n < Pow10(width)
    ensures PadStart(Decimal(n), width) == Fixed(n, width)
    ensures |Decimal(n)| <= width
  {
    if n < 10 {
      FixedZero(width - 1);
    } else {
      assert Pow10(1) == 10 * Pow10(0);
      PadIsFixed(n / 10, width - 1);
      var head := Decimal(n / 10);
      assert Decimal(n) == head + [DIGITS[n % 10]];
      assert PadStart(Decimal(n), width) == PadStart(head, width - 1) + [DIGITS[n % 10]];
    }
  }

  lemma {:induction false} LessConcat(a: string, b: string, x: string, y: string)
    requires |a| == |b|
    ensures Less(a + x, b + y) <==> Less(a, b) || (a == b && Less(x, y))
  {
    if a == [] {
      assert a + x == x && b + y == y;
    } else {
      assert (a + x)[1..] == a[1..] + x && (b + y)[1..] == b[1..] + y;
      LessConcat(a[1..], b[1..], x, y);
      if a[0] == b[0] && a[1..] == b[1..] {
        assert a == [a[0]] + a[1..] && b == [b[0]] + b[1..];
      }
    }
  }

  lemma {:induction false} FixedOrder(a: nat, b: nat, width: nat)
    requires a < Pow10(width) && b < Pow10(width)
    ensures Less(Fixed(a, width), Fixed(b, width)) <==> a < b
    ensures Fixed(a, width) == Fixed(b, width) <==> a == b
  {
    if width > 0 {
      FixedOrder(a / 10, b / 10, width - 1);
      DigitOrder(a % 10, b % 10);
      var x, y := Fixed(a / 10, width - 1), Fixed(b / 10, width - 1);
      LessConcat(x, y, [DIGITS[a % 10]], [DIGITS[b % 10]]);
      assert Fixed(a, width)[..width - 1] == x && Fixed(b, width)[..width - 1] == y;
      assert Fixed(a, width)[width - 1] == DIGITS[a % 10] && Fixed(b, width)[width - 1] == DIGITS[b % 10];
    }
  }

  /** Strings that start with fields of one width compare field first. */
  lemma SplitField(a: string, b: string, s: string, t: string)
    requires |a| == |b|
    ensures Less(a + s, b + t) <==> Less(a, b) || (a == b && Less(s, t))
    ensures a + s == b + t <==> a == b && s == t
    ensures a == b ==> !Less(a, b)
  {
    LessConcat(a, b, s, t);
    LessIrreflexive(a);
    if a + s == b + t {
      assert (a + s)[..|a|] == a && (b + t)[..|a|] == b;
      assert (a + s)[|a|..] == s && (b + t)[|a|..] == t;
    }
  }

  /** Two fixed-width fields between fixed separators sort field by field. */
  lemma FieldOrder(head: string, a: string, b: string, mid: string, x: string, y: string, tail: string)
    requires |a| == |b| && |x| == |y|
    ensures Less(Joined(head, a, mid, x, tail), Joined(head, b, mid, y, tail)) <==> Less(a, b) || (a == b && Less(x, y))
    ensures Joined(head, a, mid, x, tail) == Joined(head, b, mid, y, tail) <==> a == b && x == y
  {
    var xt, yt := x + tail, y + tail;
    var mx, my := mid + xt, mid + yt;
    var am, bm := a + mx, b + my;
    SplitField(head, head, am, bm);
    SplitField(a, b, mx, my);
    SplitField(mid, mid, xt, yt);
    SplitField(x, y, tail, tail);
    LessIrreflexive(tail);
  }

  /** While the clock has 13 digits and a process writes at most 9999 segments,
      the string sort is the order of the pairs, and names never collide. */
  lemma NamesSortAsPairs(a: Name, b: Name)
    requires a.ms < Pow10(13) && b.ms < Pow10(13) && a.serial < Pow10(4) && b.serial < Pow10(4)
    ensures Less(FileName(a), FileName(b)) <==> a.Before(b)
    ensures FileName(a) == FileName(b) <==> a == b
  {
    PadIsFixed(a.ms, 13);
    PadIsFixed(b.ms, 13);
    PadIsFixed(a.serial, 4);
    PadIsFixed(b.serial, 4);
    FixedOrder(a.ms, b.ms, 13);
    FixedOrder(a.serial, b.serial, 4);
    FieldOrder("seg-", Fixed(a.ms, 13), Fixed(b.ms, 13), "-", Fixed(a.serial, 4), Fixed(b.serial, 4), ".json");
  }

  lemma {:induction false} LessIrreflexive(s: string)
    ensures !Less(s, s)
  {
    if s != [] { LessIrreflexive(s[1..]); }
  }

  /** Past 9999 the padding no longer lines up: segment 10000 sorts before 9999,
      so a pass would send it first. */
  lemma SerialOverflowReorders(ms: nat)
    requires ms < Pow10(13)
    ensures Name(ms, 9999).Before(Name(ms, 10000))
    ensures Less(FileName(Name(ms, 10000)), FileName(Name(ms, 9999)))
  {
    var head := "seg-" + PadStart(Decimal(ms), 13) + "-";
    TenThousand();
    NameEnds(ms, 10000, "10000");
    NameEnds(ms, 9999, "9999");
    OneFirst("0000.json", "999.json");
    assert "10000" + ".json" == "1" + "0000.json" && "9999" + ".json" == "9" + "999.json";
    LessConcat(head, head, "1" + "0000.json", "9" + "999.json");
  }

  lemma OneFirst(a: string, b: string)
    ensures Less("1" + a, "9" + b)
  {
  }

  lemma NameEnds(ms: nat, serial: nat, digits: string)
    requires PadStart(Decimal(serial), 4) == digits
    ensures FileName(Name(ms, serial)) == ("seg-" + PadStart(Decimal(ms), 13) + "-") + (digits + ".json")
  {
  }

  /** The listing sorts like the pairs, for all 13-digit instants and sequence
      numbers up to `n`, if and only if `n` has at most four digits. */
  lemma SerialsSortIff(n: nat)
    ensures n <= 9999 <==>
            forall a: Name, b: Name :: a.ms < Pow10(13) && b.ms < Pow10(13) && a.serial <= n && b.serial <= n ==>
              (Less(FileName(a), FileName(b)) <==> a.Before(b))
  {
    if n <= 9999 {
      forall a: Name, b: Name | a.ms < Pow10(13) && b.ms < Pow10(13) && a.serial <= n && b.serial <= n
        ensures Less(FileName(a), FileName(b)) <==> a.Before(b)
      {
        NamesSortAsPairs(a, b);
      }
    } else {
      SerialOverflowReorders(0);
      assert Name(0, 10000).Before(Name(0, 9999)) == false;
      assert Less(FileName(Name(0, 10000)), FileName(Name(0, 9999)));
    }
  }

  lemma TenThousand()
    ensures PadStart(Decimal(10000), 4) == "10000" && PadStart(Decimal(9999), 4) == "9999"
  {
    assert Decimal(1) == "1";
    assert Decimal(10) == "10";
    assert Decimal(100) == "100";
    assert Decimal(1000) == "1000";
    assert Decimal(10000) == "10000";
    assert Decimal(9) == "9";
    assert Decimal(99) == "99";
    assert Decimal(999) == "999";
    assert Decimal(9999) == "9999";
  }
}
