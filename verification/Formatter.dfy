// The formatter of the failure signal handler, which writes into a fixed buffer.
module Formatter {
  import opened CStrings
  import opened Division

  type Radix = r: int | 2 <= r <= 36 witness 10

  function Digit(d: int): char
    requires 0 <= d < 36
  {
    if d < 10 then '0' + d as char else 'a' + (d - 10) as char
  }

  // The canonical digits of a number.
  function Digits(number: nat, radix: Radix): (s: string)
    ensures s != []
  {
    if number < radix then [Digit(number)]
    else
      QuotientDecreases(radix, number);
      Digits(number / radix, radix) + [Digit(number % radix)]
  }

  function Value(c: char): nat
  {
    if '0' <= c <= '9' then (c - '0') as nat
    else if 'a' <= c <= 'z' then (c - 'a') as nat + 10
    else 0
  }

  function Decode(s: string, radix: Radix): nat
  {
    if s == [] then 0 else Decode(s[..|s| - 1], radix) * radix + Value(s[|s| - 1])
  }

  function Power(radix: Radix, k: nat): (p: nat)
    ensures p >= 1
  {
    if k == 0 then 1 else radix * Power(radix, k - 1)
  }

  // The last k characters.
  function Last(s: string, k: nat): string
    requires k <= |s|
  {
    s[|s| - k..]
  }

  function Min(a: nat, b: nat): nat { if a < b then a else b }

  lemma ValueOfDigit(d: int)
    requires 0 <= d < 36
    ensures Value(Digit(d)) == d && (Digit(d) == '0' <==> d == 0)
  {
  }

  lemma DecodeAppend(s: string, c: char, radix: Radix, v: nat)
    requires v == Decode(s, radix)
    ensures Decode(s + [c], radix) == v * radix + Value(c)
  {
    assert (s + [c])[..|s|] == s;
  }

  lemma Quotient(number: nat, radix: Radix) returns (q: nat, r: nat)
    ensures q == number / radix && r == number % radix && q * radix + r == number
    ensures number >= radix ==> 0 < q < number
  {
    QuotientDecreases(radix, number);
    q, r := number / radix, number % radix;
  }

  // The digits give the number back, and do not start with a zero unless it is zero.
  lemma {:induction false} DigitsDecode(number: nat, radix: Radix)
    ensures Decode(Digits(number, radix), radix) == number
    ensures number > 0 ==> Digits(number, radix)[0] != '0'
    ensures number == 0 ==> Digits(number, radix) == "0"
  {
    if number < radix {
      ValueOfDigit(number);
      DecodeAppend([], Digit(number), radix, 0);
      assert [] + [Digit(number)] == Digits(number, radix);
    } else {
      var q, r := Quotient(number, radix);
      ValueOfDigit(r);
      DigitsDecode(q, radix);
      DecodeAppend(Digits(q, radix), Digit(r), radix, q);
    }
  }

  lemma TwoRemainders(n: nat, radix: Radix, p: nat, q: nat, r: nat, a: nat, b: nat)
    requires n == q * radix + r && r < radix && q == p * a + b && b < p
    ensures n == radix * p * a + (b * radix + r) && b * radix + r < radix * p
  {
    MultipleApart(radix, b, p);
    assert q * radix == (p * a) * radix + b * radix;
    assert (p * a) * radix == radix * p * a;
  }

  lemma RemainderOfProduct(n: nat, radix: Radix, p: nat, q: nat, r: nat)
    requires p >= 1 && n == q * radix + r && r < radix
    ensures radix * p >= 1 && n % (radix * p) == (q % p) * radix + r
  {
    var a, b := q / p, q % p;
    TwoRemainders(n, radix, p, q, r, a, b);
    DividesAs(radix * p, n, a, b * radix + r);
  }

  lemma OneDigit(number: nat, radix: Radix)
    requires number < radix
    ensures Decode([Digit(number)], radix) == number
    ensures number % Power(radix, 0) == 0 && number % Power(radix, 1) == number
  {
    ValueOfDigit(number);
    DecodeAppend([], Digit(number), radix, 0);
    assert [] + [Digit(number)] == [Digit(number)];
    assert Power(radix, 1) == radix;
    DividesAs(radix, number, 0, number);
    DividesAs(1, number, number, 0);
  }

  // Digit r behind the last k digits of q.
  lemma OneMoreDigit(number: nat, radix: Radix, k: nat, q: nat, r: nat, s: string)
    requires number == q * radix + r && r < radix && Decode(s, radix) == q % Power(radix, k)
    ensures Decode(s + [Digit(r)], radix) == number % Power(radix, k + 1)
  {
    ValueOfDigit(r);
    DecodeAppend(s, Digit(r), radix, q % Power(radix, k));
    RemainderOfProduct(number, radix, Power(radix, k), q, r);
  }

  lemma LastOfLonger(s: string, c: char, k: nat)
    requires 1 <= k <= |s| + 1
    ensures Last(s + [c], k) == Last(s, k - 1) + [c]
  {
  }

  // The last k digits give the number modulo the k-th power of the radix.
  lemma {:induction false} LastDigitsDecode(number: nat, radix: Radix, k: nat)
    requires k <= |Digits(number, radix)|
    ensures Decode(Last(Digits(number, radix), k), radix) == number % Power(radix, k)
    decreases k
  {
    if number < radix {
      OneDigit(number, radix);
      assert Last([Digit(number)], 1) == [Digit(number)];
    } else {
      var q, r := Quotient(number, radix);
      if k == 0 {
        DividesAs(1, number, number, 0);
      } else {
        LastDigitsDecode(q, radix, k - 1);
        LastOfLonger(Digits(q, radix), Digit(r), k);
        OneMoreDigit(number, radix, k - 1, q, r, Last(Digits(q, radix), k - 1));
      }
    }
  }

  // ----- the formatter ----------------------------------------------------------------------

  // What one call writes when there is room for so many characters: of a string the first,
  // of a number the last.
  datatype Item = Text(s: CString) | Number(n: nat, radix: Radix)

  function Whole(item: Item): string
  {
    match item
    case Text(s) => s
    case Number(n, radix) => Digits(n, radix)
  }

  function Written(item: Item, room: nat): (w: string)
    ensures |w| == Min(|Whole(item)|, room)
  {
    match item
    case Text(s) => s[..Min(|s|, room)]
    case Number(n, radix) => Last(Digits(n, radix), Min(|Digits(n, radix)|, room))
  }

  // Of a string that does not fit its start is kept, of a number its end.
  lemma StartOrEndWritten(item: Item, room: nat)
    ensures match item
            case Text(s) => Written(item, room) <= s
            case Number(_, _) =>
              Whole(item)[|Whole(item)| - |Written(item, room)|..] == Written(item, room)
  {
  }

  // Read back, the characters written for a number are the number if there is room for
  // all its digits, and the number modulo a power of the radix if there is not.
  lemma NumberWritten(number: nat, radix: Radix, room: nat)
    ensures Decode(Written(Number(number, radix), room), radix) ==
            if |Digits(number, radix)| <= room then number else number % Power(radix, room)
  {
    var digits := Digits(number, radix);
    DigitsDecode(number, radix);
    LastDigitsDecode(number, radix, Min(|digits|, room));
    assert Last(digits, |digits|) == digits;
  }

  // What the first n calls write into a buffer of the given size.
  function Output(items: seq<Item>, n: nat, size: nat): (w: string)
    requires n <= |items|
    ensures |w| <= size
  {
    if n == 0 then ""
    else
      var w := Output(items, n - 1, size);
      w + Written(items[n - 1], size - |w|)
  }

  function Full(items: seq<Item>, n: nat): string
    requires n <= |items|
  {
    if n == 0 then "" else Full(items, n - 1) + Whole(items[n - 1])
  }

  lemma AllWritten(item: Item, room: nat)
    requires |Whole(item)| <= room
    ensures Written(item, room) == Whole(item)
  {
  }

  // The buffer is filled up, and holds everything if everything fits.
  lemma {:induction false} FilledUp(items: seq<Item>, n: nat, size: nat)
    requires n <= |items|
    ensures |Output(items, n, size)| == Min(|Full(items, n)|, size)
    ensures |Full(items, n)| <= size ==> Output(items, n, size) == Full(items, n)
  {
    hide Whole, Written;
    if n > 0 {
      FilledUp(items, n - 1, size);
      if |Full(items, n)| <= size {
        AllWritten(items[n - 1], size - |Output(items, n - 1, size)|);
      }
    }
  }

  lemma TailsAgree(before: seq<char>, middle: seq<char>, now: seq<char>, c: nat, c': nat)
    requires c <= c' <= |before| == |middle| == |now|
    requires middle[c..] == before[c..] && now[c'..] == middle[c'..]
    ensures now[c'..] == before[c'..]
  {
    assert middle[c..][c' - c..] == middle[c'..] && before[c..][c' - c..] == before[c'..];
  }

  // The digits of n are all but the last i: what one turn of the loop finds.
  lemma LowestDigit(n: nat, radix: Radix, digits: string, i: nat)
    requires i < |digits| && Digits(n, radix) == digits[..|digits| - i]
    ensures digits[|digits| - 1 - i] == Digit(n % radix) && n / radix >= 0
    ensures n / radix == 0 <==> i + 1 == |digits|
    ensures n / radix > 0 ==> Digits(n / radix, radix) == digits[..|digits| - i - 1]
  {
    var s := Digits(n, radix);
    assert s[|s| - 1] == digits[|digits| - 1 - i] && s[..|s| - 1] == digits[..|digits| - i - 1];
    var q, r := Quotient(n, radix);
    if n < radix {
      DividesAs(radix, n, 0, n);
    } else {
      assert s[..|s| - 1] == Digits(q, radix);
    }
  }

  // The text w has been written from position c on, and nothing else.
  ghost predicate Appended(before: seq<char>, now: seq<char>, c: nat, w: seq<char>)
  {
    && c + |w| <= |before| == |now|
    && (forall k :: 0 <= k < c || c + |w| <= k < |now| ==> now[k] == before[k])
    && (forall k :: c <= k < c + |w| ==> now[k] == w[k - c])
  }

  lemma AppendedText(before: seq<char>, now: seq<char>, c: nat, w: seq<char>)
    requires Appended(before, now, c, w)
    ensures now[..c + |w|] == before[..c] + w && now[c + |w|..] == before[c + |w|..]
  {
  }

  lemma LastReversed(before: seq<char>, half: seq<char>, now: seq<char>, c: nat, i: nat, digits: string, w: string)
    requires c + i <= |before| == |half| == |now| && i <= |digits| && w == Last(digits, i)
    requires forall k {:trigger half[k]} :: 0 <= k < c || c + i <= k < |half| ==> half[k] == before[k]
    requires forall k {:trigger half[k]} :: c <= k < c + i ==> half[k] == digits[|digits| - 1 - (k - c)]
    requires forall k {:trigger now[k]} :: 0 <= k < c || c + i <= k < |half| ==> now[k] == half[k]
    requires forall k {:trigger now[k]} :: c <= k < c + i ==> now[k] == half[c + (c + i) - 1 - k]
    ensures Appended(before, now, c, w)
  {
  }

  // std::reverse on a[lo..hi].
  method Reverse(a: array<char>, lo: nat, hi: nat)
    requires lo <= hi <= a.Length
    modifies a
    ensures forall k {:trigger a[k]} :: 0 <= k < lo || hi <= k < a.Length ==> a[k] == old(a[k])
    ensures forall k {:trigger a[k]} :: lo <= k < hi ==> a[k] == old(a[lo + hi - 1 - k])
  {
    var i, j := lo, hi;
    while i + 1 < j
      invariant lo <= i <= j + 1 && j <= hi && i + j == lo + hi
      invariant forall k :: 0 <= k < lo || hi <= k < a.Length ==> a[k] == old(a[k])
      invariant forall k :: lo <= k < i || j <= k < hi ==> a[k] == old(a[lo + hi - 1 - k])
      invariant forall k :: i <= k < j ==> a[k] == old(a[k])
    {
      a[i], a[j - 1] := a[j - 1], a[i];
      i, j := i + 1, j - 1;
    }
  }

  class MinimalFormatter {
    const buffer: array<char>  // from buffer_ to end_
    var cursor: nat

    constructor (buffer: array<char>)
      ensures this.buffer == buffer && cursor == 0
    {
      this.buffer, cursor := buffer, 0;
    }

    ghost predicate Valid()
      reads this
    {
      cursor <= buffer.Length
    }

    // What has been written.
    ghost function Contents(): string
      requires Valid()
      reads this, buffer
    {
      buffer[..cursor]
    }

    method AppendString(str: CString)
      requires Valid()
      modifies `cursor, buffer
      ensures Valid() && Contents() == old(Contents()) + Written(Text(str), buffer.Length - old(cursor))
      ensures buffer[..][cursor..] == old(buffer[..])[cursor..]
    {
      var i := 0;
      while At(str, i) != '\0' && cursor + i < buffer.Length
        invariant i <= |str| && cursor + i <= buffer.Length && cursor == old(cursor)
        invariant forall k :: 0 <= k < cursor || cursor + i <= k < buffer.Length ==> buffer[k] == old(buffer[k])
        invariant forall k :: 0 <= k < i ==> buffer[cursor + k] == str[k]
        decreases |str| - i
      {
        buffer[cursor + i] := str[i];
        i := i + 1;
      }
      cursor := cursor + i;
    }

    // The loop of AppendUint64: the last digits, the last one first.
    method WriteDigits(number: nat, radix: Radix, ghost digits: string) returns (i: nat)
      requires Valid() && digits == Digits(number, radix)
      modifies buffer
      ensures i == Min(|digits|, buffer.Length - cursor)
      ensures forall k {:trigger buffer[k]} :: 0 <= k < cursor || cursor + i <= k < buffer.Length ==>
                buffer[k] == old(buffer[k])
      ensures forall k {:trigger buffer[k]} :: cursor <= k < cursor + i ==>
                buffer[k] == digits[|digits| - 1 - (k - cursor)]
    {
      var n: nat := number;
      i := 0;
      while cursor + i < buffer.Length
        invariant i < |digits| && cursor + i <= buffer.Length
        invariant Digits(n, radix) == digits[..|digits| - i]
        invariant forall k :: 0 <= k < cursor || cursor + i <= k < buffer.Length ==> buffer[k] == old(buffer[k])
        invariant forall k :: cursor <= k < cursor + i ==> buffer[k] == digits[|digits| - 1 - (k - cursor)]
        decreases |digits| - i
      {
        var tmp := n % radix;
        LowestDigit(n, radix, digits, i);
        n := n / radix;
        buffer[cursor + i] := Digit(tmp);
        i := i + 1;
        if n == 0 {
          break;
        }
      }
    }

    // The rest of AppendUint64: puts the i digits in order.
    method ReverseDigits(i: nat, ghost before: seq<char>, ghost digits: string, ghost w: string)
      requires |before| == buffer.Length && cursor + i <= buffer.Length && i <= |digits| && w == Last(digits, i)
      requires forall k {:trigger buffer[k]} :: 0 <= k < cursor || cursor + i <= k < buffer.Length ==>
                buffer[k] == before[k]
      requires forall k {:trigger buffer[k]} :: cursor <= k < cursor + i ==>
                buffer[k] == digits[|digits| - 1 - (k - cursor)]
      modifies `cursor, buffer
      ensures cursor == old(cursor) + i && Valid()
      ensures Contents() == before[..old(cursor)] + w && buffer[..][cursor..] == before[cursor..]
    {
      ghost var half := buffer[..];
      Reverse(buffer, cursor, cursor + i);
      LastReversed(before, half, buffer[..], cursor, i, digits, w);
      AppendedText(before, buffer[..], cursor, w);
      cursor := cursor + i;
    }

    method AppendUint64(number: nat, radix: Radix)
      requires Valid()
      modifies `cursor, buffer
      ensures Valid() && Contents() == old(Contents()) + Written(Number(number, radix), buffer.Length - old(cursor))
      ensures buffer[..][cursor..] == old(buffer[..])[cursor..]
    {
      ghost var before, digits := buffer[..], Digits(number, radix);
      ghost var w := Written(Number(number, radix), buffer.Length - cursor);
      var i := WriteDigits(number, radix, digits);
      ReverseDigits(i, before, digits, w);
    }

    method Append(item: Item)
      requires Valid()
      modifies `cursor, buffer
      ensures Valid() && Contents() == old(Contents()) + Written(item, buffer.Length - old(cursor))
      ensures buffer[..][cursor..] == old(buffer[..])[cursor..]
    {
      match item
      case Text(s) => AppendString(s);
      case Number(n, radix) => AppendUint64(n, radix);
    }

    // The n-th of a sequence of calls.
    method AppendNth(items: seq<Item>, n: nat, ghost before: seq<char>)
      requires Valid() && n < |items| && |before| == buffer.Length
      requires Contents() == Output(items, n, buffer.Length) && buffer[..][cursor..] == before[cursor..]
      modifies `cursor, buffer
      ensures Valid() && Contents() == Output(items, n + 1, buffer.Length) && buffer[..][cursor..] == before[cursor..]
    {
      ghost var c, middle := cursor, buffer[..];
      Append(items[n]);
      TailsAgree(before, middle, buffer[..], c, cursor);
    }
  }

  // Any calls in any order write the output and nothing behind it.
  method Format(buffer: array<char>, items: seq<Item>) returns (n: nat)
    modifies buffer
    ensures n <= buffer.Length && buffer[..n] == Output(items, |items|, buffer.Length)
    ensures buffer[n..] == old(buffer[..])[n..]
  {
    ghost var before := buffer[..];
    var formatter := new MinimalFormatter(buffer);
    for i := 0 to |items|
      invariant fresh(formatter) && formatter.buffer == buffer && formatter.Valid()
      invariant formatter.Contents() == Output(items, i, buffer.Length)
      invariant buffer[..][formatter.cursor..] == before[formatter.cursor..]
    {
      formatter.AppendNth(items, i, before);
    }
    n := formatter.cursor;
  }
}
