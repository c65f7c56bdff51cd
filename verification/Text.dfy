// Text handling the appliance relies on: splitting and joining on a separator,
// and decimal numbers without leading zeros.
module Text {

  function Split(s: string, sep: char): (parts: seq<string>)
    ensures |parts| >= 1
  {
    if s == "" then [""]
    else
      var rest := Split(s[1..], sep);
      if s[0] == sep then [""] + rest else [[s[0]] + rest[0]] + rest[1..]
  }

  function Join(parts: seq<string>, sep: char): string
    requires |parts| >= 1
  {
    if |parts| == 1 then parts[0] else parts[0] + [sep] + Join(parts[1..], sep)
  }

  lemma {:induction false} JoinSplit(s: string, sep: char)
    ensures Join(Split(s, sep), sep) == s
  {
    if s != "" {
      JoinSplit(s[1..], sep);
      var rest := Split(s[1..], sep);
      if s[0] == sep {
        assert ([""] + rest)[1..] == rest;
      } else {
        assert ([[s[0]] + rest[0]] + rest[1..])[1..] == rest[1..];
      }
      assert s == [s[0]] + s[1..];
    }
  }

  /** Parts free of the separator can be recovered from the joined text. */
  lemma {:induction false} SplitJoin(parts: seq<string>, sep: char)
    requires |parts| >= 1
    requires forall p | p in parts :: sep !in p
    ensures Split(Join(parts, sep), sep) == parts
  {
    var head := parts[0];
    if |parts| == 1 {
      SplitPlain(head, sep);
    } else {
      SplitJoin(parts[1..], sep);
      SplitAt(head, Join(parts[1..], sep), sep);
      assert head + [sep] + Join(parts[1..], sep) == head + ([sep] + Join(parts[1..], sep));
    }
  }

  lemma {:induction false} SplitPlain(head: string, sep: char)
    requires sep !in head
    ensures Split(head, sep) == [head]
  {
    if head != "" {
      SplitPlain(head[1..], sep);
      assert [head[0]] + head[1..] == head;
    }
  }

  lemma {:induction false} SplitAt(head: string, tail: string, sep: char)
    requires sep !in head
    ensures Split(head + ([sep] + tail), sep) == [head] + Split(tail, sep)
  {
    var s := head + ([sep] + tail);
    if head == "" {
      assert s[1..] == tail;
    } else {
      SplitAt(head[1..], tail, sep);
      assert s[1..] == head[1..] + ([sep] + tail);
      assert [head[0]] + head[1..] == head;
    }
  }

  predicate Digit(c: char) {
    '0' <= c <= '9'
  }

  function Decimal(n: nat): (s: string)
    ensures |s| >= 1 && forall c | c in s :: Digit(c)
  {
    var last := [('0' as int + n % 10) as char];
    if n < 10 then last else Decimal(n / 10) + last
  }

  function Value(s: string): nat
    requires forall c | c in s :: Digit(c)
  {
    if s == "" then 0
    else
      var n := |s| - 1;
      assert Digit(s[n]);
      10 * Value(s[..n]) + (s[n] as int - '0' as int)
  }

  lemma {:induction false} ValueOfDecimal(n: nat)
    ensures Value(Decimal(n)) == n
  {
    var s := Decimal(n);
    if n >= 10 {
      ValueOfDecimal(n / 10);
      assert s[..|s| - 1] == Decimal(n / 10);
    }
  }

  /** Digits without a leading zero are the only decimal text of their value. */
  lemma {:induction false} DecimalOfValue(s: string)
    requires s != "" && forall c | c in s :: Digit(c)
    requires |s| > 1 ==> s[0] != '0'
    ensures Decimal(Value(s)) == s
    ensures s[0] != '0' ==> Value(s) > 0
  {
    var n := |s| - 1;
    assert s == s[..n] + [s[n]] && Digit(s[n]);
    if n > 0 {
      assert s[..n][0] == s[0];
      DecimalOfValue(s[..n]);
    } else {
      assert Value(s[..n]) == 0;
    }
  }
}
