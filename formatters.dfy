/**
 * The display helpers shared by the pages: order totals, Togolese phone-number
 * layout, the French status labels and badge classes, and the order-number
 * layout `CMD<year><month><day><draw>`.
 */
module Formatters {
  import opened Common
  import opened Records
  import opened Calendar

  // ---- calculateTotal ------------------------------------------------------

  function LineAmount(line: LineItem): int
  {
    line.item.fields.price * line.quantity
  }

  /** `items.reduce((total, item) => total + item.price * item.quantity, 0)`. */
  function CalculateTotal(items: seq<LineItem>): (r: int)
    ensures items == [] ==> r == 0
    ensures (forall l :: l in items ==> l.item.fields.price >= 0 && l.quantity >= 0) ==> r >= 0
  {
    assert (forall l :: l in items ==> l.item.fields.price >= 0 && l.quantity >= 0) ==> SumOf(items, LineAmount) >= 0 by {
      if forall l :: l in items ==> l.item.fields.price >= 0 && l.quantity >= 0 {
        SumOfNonNegative(items, LineAmount);
      }
    }
    SumOf(items, LineAmount)
  }

  /** The total of two carts laid end to end is the sum of their totals. */
  lemma TotalAppend(a: seq<LineItem>, b: seq<LineItem>)
    ensures CalculateTotal(a + b) == CalculateTotal(a) + CalculateTotal(b)
  {
    SumOfAppend(a, b, LineAmount);
  }

  /** One more line adds its price times its quantity. */
  lemma TotalSnoc(a: seq<LineItem>, line: LineItem)
    ensures CalculateTotal(a + [line]) == CalculateTotal(a) + line.item.fields.price * line.quantity
  {
    TotalAppend(a, [line]);
    assert [line][..0] == [];
  }

  // ---- formatPhoneNumber ---------------------------------------------------

  /** `+228 DD DDD DDD` and whatever digits follow the first eleven. */
  function InternationalLayout(d: string): string
    requires |d| >= 11
  {
    "+" + d[..3] + " " + d[3..5] + " " + d[5..8] + " " + d[8..11] + d[11..]
  }

  /** `DD DDD DDD`. */
  function LocalLayout(d: string): string
    requires |d| == 8
  {
    d[..2] + " " + d[2..5] + " " + d[5..8]
  }

  /**
   * `formatPhoneNumber`: nothing for an absent or empty number; the digits laid out
   * as `+228 ...` when they start with the Togo code 228 and number at least eleven,
   * left bare when they start with 228 but are fewer; `DD DDD DDD` for exactly eight
   * digits; otherwise the input as given.
   */
  function FormatPhoneNumber(phone: Option<string>): (r: string)
    ensures phone.None? || phone.value == "" ==> r == ""
    ensures DigitsOf(r) == if phone.None? then "" else DigitsOf(phone.value)
    ensures phone.Some? && phone.value != "" ==> r != ""
  {
    if phone.None? || phone.value == "" then ""
    else
      var cleaned := DigitsOf(phone.value);
      DigitsOfDigits(cleaned);
      if IsPrefix("228", cleaned) then
        if |cleaned| >= 11 then
          InternationalDigits(cleaned);
          InternationalLayout(cleaned)
        else cleaned
      else if |cleaned| == 8 then
        LocalDigits(cleaned);
        LocalLayout(cleaned)
      else phone.value
  }

  /** A blank between two texts adds no digit. */
  lemma DigitsAroundBlank(a: string, b: string)
    ensures DigitsOf(a + " " + b) == DigitsOf(a) + DigitsOf(b)
  {
    DigitsOfAppend(a + " ", b);
    DigitsOfAppend(a, " ");
  }

  /** The separators of the international layout carry no digits. */
  lemma InternationalDigits(d: string)
    requires |d| >= 11 && forall i :: 0 <= i < |d| ==> IsDigit(d[i])
    ensures DigitsOf(InternationalLayout(d)) == d
  {
    var s1 := "+" + d[..3];
    assert DigitsOf(s1) == d[..3] by {
      DigitsOfAppend("+", d[..3]);
      DigitsOfDigits(d[..3]);
    }
    var s2 := s1 + " " + d[3..5];
    assert DigitsOf(s2) == d[..5] by {
      DigitsAroundBlank(s1, d[3..5]);
      DigitsOfDigits(d[3..5]);
      assert d[..3] + d[3..5] == d[..5];
    }
    var s3 := s2 + " " + d[5..8];
    assert DigitsOf(s3) == d[..8] by {
      DigitsAroundBlank(s2, d[5..8]);
      DigitsOfDigits(d[5..8]);
      assert d[..5] + d[5..8] == d[..8];
    }
    var s4 := s3 + " " + d[8..11];
    assert DigitsOf(s4) == d[..11] by {
      DigitsAroundBlank(s3, d[8..11]);
      DigitsOfDigits(d[8..11]);
      assert d[..8] + d[8..11] == d[..11];
    }
    DigitsOfAppend(s4, d[11..]);
    DigitsOfDigits(d[11..]);
    assert d[..11] + d[11..] == d;
  }

  lemma LocalDigits(d: string)
    requires |d| == 8 && forall i :: 0 <= i < |d| ==> IsDigit(d[i])
    ensures DigitsOf(LocalLayout(d)) == d
  {
    DigitsOfDigits(d[..2]);
    DigitsOfDigits(d[2..5]);
    DigitsOfDigits(d[5..8]);
    DigitsAroundBlank(d[..2], d[2..5]);
    assert d[..2] + d[2..5] == d[..5];
    DigitsAroundBlank(d[..2] + " " + d[2..5], d[5..8]);
    assert d[..5] + d[5..8] == d;
  }

  /** Formatting an already formatted number changes nothing. */
  lemma FormatPhoneIdempotent(phone: Option<string>)
    ensures FormatPhoneNumber(Some(FormatPhoneNumber(phone))) == FormatPhoneNumber(phone)
  {
  }

  /** A 228 number of eleven or more digits reads `+228 DD DDD DDD` then the rest, whatever its punctuation. */
  lemma InternationalShape(phone: string)
    requires IsPrefix("228", DigitsOf(phone)) && |DigitsOf(phone)| >= 11
    ensures var r := FormatPhoneNumber(Some(phone));
            var d := DigitsOf(phone);
            && |r| == |d| + 4
            && r[..5] == "+228 " && r[7] == ' ' && r[11] == ' '
            && r[5..7] == d[3..5] && r[8..11] == d[5..8] && r[12..15] == d[8..11] && r[15..] == d[11..]
  {
  }

  /** A 228 prefix with fewer than eleven digits comes back as the bare digits. */
  lemma ShortInternationalBare(phone: string)
    requires IsPrefix("228", DigitsOf(phone)) && |DigitsOf(phone)| < 11
    ensures FormatPhoneNumber(Some(phone)) == DigitsOf(phone)
  {
  }

  /** Eight digits not starting with 228 read `DD DDD DDD`. */
  lemma LocalShape(phone: string)
    requires !IsPrefix("228", DigitsOf(phone)) && |DigitsOf(phone)| == 8
    ensures var r := FormatPhoneNumber(Some(phone));
            var d := DigitsOf(phone);
            |r| == 10 && r[2] == ' ' && r[6] == ' ' && r[..2] == d[..2] && r[3..6] == d[2..5] && r[7..] == d[5..]
  {
  }

  /** Any other number is returned exactly as typed, punctuation included. */
  lemma OtherUntouched(phone: string)
    requires phone != "" && !IsPrefix("228", DigitsOf(phone)) && |DigitsOf(phone)| != 8
    ensures FormatPhoneNumber(Some(phone)) == phone
  {
  }

  // ---- formatOrderStatus / getStatusColor ----------------------------------

  predicate IsKnownStatus(status: string)
  {
    status == Pending || status == Completed || status == PickedUp || status == Cancelled
  }

  /** `statusMap[status] || status`. */
  function FormatOrderStatus(status: string): (r: string)
    ensures r == status <==> !IsKnownStatus(status)
  {
    if status == Pending then "En attente"
    else if status == Completed then "Termin\U{00E9}"
    else if status == PickedUp then "R\U{00E9}cup\U{00E9}r\U{00E9}"
    else if status == Cancelled then "Annul\U{00E9}"
    else status
  }

  /** Distinct known statuses get distinct labels. */
  lemma StatusLabelsDistinct(a: string, b: string)
    requires IsKnownStatus(a) && IsKnownStatus(b) && a != b
    ensures FormatOrderStatus(a) != FormatOrderStatus(b)
  {
  }

  /** `colorMap[status] || 'secondary'`. */
  function GetStatusColor(status: string): (r: string)
    ensures r in {"warning", "success", "primary", "danger", "secondary"}
    ensures r == "secondary" <==> !IsKnownStatus(status)
  {
    if status == Pending then "warning"
    else if status == Completed then "success"
    else if status == PickedUp then "primary"
    else if status == Cancelled then "danger"
    else "secondary"
  }

  // ---- generateOrderNumber -------------------------------------------------

  lemma NatToStringShort(n: nat)
    ensures n < 10 ==> |NatToString(n)| == 1
    ensures n < 100 ==> |NatToString(n)| <= 2
    ensures n < 1000 ==> |NatToString(n)| <= 3
  {
    if n >= 10 {
      assert n / 10 < 10 ==> |NatToString(n / 10)| == 1;
      if n >= 100 {
        assert n / 100 < 10 ==> |NatToString(n / 100)| == 1;
      }
    }
  }

  /** Zero padding keeps a digit string all digits. */
  lemma PadDigits(s: string, width: nat)
    requires forall i :: 0 <= i < |s| ==> IsDigit(s[i])
    ensures forall i :: 0 <= i < |PadStart(s, width, '0')| ==> IsDigit(PadStart(s, width, '0')[i])
  {
    var r := PadStart(s, width, '0');
    forall i | 0 <= i < |r| ensures IsDigit(r[i]) {
      if i >= |r| - |s| {
        assert r[i] == r[|r| - |s|..][i - (|r| - |s|)];
      }
    }
  }

  /** A zero-padded field of exactly `width` characters holding `n`. */
  function Field(n: nat, width: nat): (r: string)
    requires (width == 2 && n < 100) || (width == 3 && n < 1000)
    ensures |r| == width
    ensures forall i :: 0 <= i < |r| ==> IsDigit(r[i])
    ensures DigitsValue(r) == n
  {
    NatToStringShort(n);
    NatToStringValue(n);
    ZeroPadValue(NatToString(n), width);
    PadDigits(NatToString(n), width);
    PadStart(NatToString(n), width, '0')
  }

  /**
   * `CMD` + the local year + two-digit month + two-digit day + a three-digit draw
   * from `Math.floor(Math.random() * 1000)`; the fields read back from the end.
   */
  function GenerateOrderNumber(date: Date, draw: nat): (r: string)
    requires date.year >= 0 && 1 <= date.month <= 12 && 1 <= date.day <= 31 && draw < 1000
    ensures |r| == 3 + |NatToString(date.year)| + 7
    ensures r[..3] == "CMD"
    ensures forall i :: 3 <= i < |r| ==> IsDigit(r[i])
    ensures DigitsValue(r[3..|r| - 7]) == date.year
    ensures DigitsValue(r[|r| - 7..|r| - 5]) == date.month
    ensures DigitsValue(r[|r| - 5..|r| - 3]) == date.day
    ensures DigitsValue(r[|r| - 3..]) == draw
  {
    var y := NatToString(date.year);
    var m := Field(date.month, 2);
    var d := Field(date.day, 2);
    var x := Field(draw, 3);
    NatToStringValue(date.year);
    Layout(y, m, d, x);
    "CMD" + y + m + d + x
  }

  /** Where the four fields sit in `CMD` + y + m + d + x. */
  lemma Layout(y: string, m: string, d: string, x: string)
    requires |m| == 2 && |d| == 2 && |x| == 3
    requires forall i :: 0 <= i < |y| ==> IsDigit(y[i])
    requires forall i :: 0 <= i < 2 ==> IsDigit(m[i]) && IsDigit(d[i])
    requires forall i :: 0 <= i < 3 ==> IsDigit(x[i])
    ensures var r := "CMD" + y + m + d + x;
            && |r| == 10 + |y|
            && r[..3] == "CMD" && r[3..|r| - 7] == y && r[|r| - 7..|r| - 5] == m
            && r[|r| - 5..|r| - 3] == d && r[|r| - 3..] == x
            && forall i :: 3 <= i < |r| ==> IsDigit(r[i])
  {
    var r := "CMD" + y + m + d + x;
    forall i | 3 <= i < |r| ensures IsDigit(r[i]) {
      if i < 3 + |y| { assert r[i] == y[i - 3]; }
      else if i < 5 + |y| { assert r[i] == m[i - 3 - |y|]; }
      else if i < 7 + |y| { assert r[i] == d[i - 5 - |y|]; }
      else { assert r[i] == x[i - 7 - |y|]; }
    }
  }

  /** In the years 1000 to 9999 an order number has fourteen characters. */
  lemma OrderNumberLength(date: Date, draw: nat)
    requires 1000 <= date.year <= 9999 && 1 <= date.month <= 12 && 1 <= date.day <= 31 && draw < 1000
    ensures |GenerateOrderNumber(date, draw)| == 14
  {
    var n: nat := date.year;
    assert NatToString(n) == NatToString(n / 10) + [('0' as int + n % 10) as char];
    assert NatToString(n / 10) == NatToString(n / 100) + [('0' as int + (n / 10) % 10) as char];
    assert NatToString(n / 100) == NatToString(n / 1000) + [('0' as int + (n / 100) % 10) as char];
  }
}
