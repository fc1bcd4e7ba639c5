/** The string operations the source applies to HTTP responses and error
    messages. */
module JsText {

  /** `s.includes(part)`: does `part` start at index 0, or somewhere in the
      rest of `s`? */
  predicate Contains(s: string, part: string)
  {
    |part| <= |s| && (s[..|part|] == part || (|s| > 0 && Contains(s[1..], part)))
  }

  /** `part` occurs in `s` starting at index `i`. */
  predicate OccursAt(s: string, part: string, i: int)
  {
    0 <= i && i + |part| <= |s| && s[i..i + |part|] == part
  }

  /** `Contains` finds `part` exactly when it occurs at some index of `s`. */
  lemma {:induction false} ContainsIffOccurs(s: string, part: string)
    ensures Contains(s, part) <==> exists i :: OccursAt(s, part, i)
    decreases |s|
  {
    if |part| <= |s| && |s| > 0 {
      ContainsIffOccurs(s[1..], part);
      if Contains(s, part) {
        if s[..|part|] == part {
          assert OccursAt(s, part, 0);
        } else {
          var i :| OccursAt(s[1..], part, i);
          assert s[1..][i..i + |part|] == s[i + 1..i + 1 + |part|];
          assert OccursAt(s, part, i + 1);
        }
      }
      if exists i :: OccursAt(s, part, i) {
        var i :| OccursAt(s, part, i);
        if i == 0 {
          assert s[..|part|] == part;
        } else {
          assert s[1..][i - 1..i - 1 + |part|] == s[i..i + |part|];
          assert OccursAt(s[1..], part, i - 1);
        }
      }
    } else if |part| <= |s| {
      assert OccursAt(s, part, 0);
    }
  }

  /** Text found in `s` is still found after a prefix is put before `s`. */
  lemma ContainsAfter(prefix: string, s: string)
    ensures forall part :: Contains(s, part) ==> Contains(prefix + s, part)
  {
    forall part | Contains(s, part) ensures Contains(prefix + s, part) {
      ContainsIffOccurs(s, part);
      ContainsIffOccurs(prefix + s, part);
      var i :| OccursAt(s, part, i);
      assert (prefix + s)[|prefix| + i..|prefix| + i + |part|] == s[i..i + |part|];
      assert OccursAt(prefix + s, part, |prefix| + i);
    }
  }

  /** `s.substring(0, 100)`: the first 100 characters of `s`, or all of it. */
  function Snippet(s: string): (r: string)
    ensures |r| <= 100
    ensures r <= s
    ensures |s| <= 100 ==> r == s
    ensures |s| > 100 ==> |r| == 100
  {
    if |s| <= 100 then s else s[..100]
  }

  /** `String(n)` for a natural number: its decimal digits. */
  function NatText(n: nat): string
  {
    if n < 10 then [Digit(n)] else NatText(n / 10) + [Digit(n % 10)]
  }

  function Digit(d: nat): char
    requires d < 10
  {
    "0123456789"[d]
  }

  /** `items.join(separator)`: the items in order, with `separator` between
      neighbours. */
  function Join(items: seq<string>, separator: string): (r: string)
    ensures items == [] ==> r == ""
    ensures items != [] ==> items[0] <= r
  {
    if items == [] then ""
    else if |items| == 1 then items[0]
    else Join(items[..|items| - 1], separator) + separator + items[|items| - 1]
  }

  /** Every item can be found in the joined text. */
  lemma {:induction false} JoinHoldsEach(items: seq<string>, separator: string)
    ensures forall e :: e in items ==> Contains(Join(items, separator), e)
  {
    if |items| > 1 {
      var init, last := items[..|items| - 1], items[|items| - 1];
      var j, r := Join(init, separator), Join(items, separator);
      assert items == init + [last];
      assert r == j + separator + last;
      JoinHoldsEach(init, separator);
      forall e | e in items ensures Contains(r, e) {
        ContainsIffOccurs(r, e);
        if e == last {
          assert r[|j| + |separator|..|j| + |separator| + |e|] == e;
          assert OccursAt(r, e, |j| + |separator|);
        } else {
          assert e in init;
          ContainsIffOccurs(j, e);
          var i :| OccursAt(j, e, i);
          assert r[i..i + |e|] == j[i..i + |e|];
          assert OccursAt(r, e, i);
        }
      }
    } else if |items| == 1 {
      ContainsIffOccurs(items[0], items[0]);
      assert OccursAt(items[0], items[0], 0);
    }
  }
}
