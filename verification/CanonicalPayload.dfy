/** The payload an agent signs, and why it can be read back in only one way. */
module CanonicalPayload {

  /** What parseInt makes of the timestamp header: an integer, or NaN. */
  datatype Timestamp = Seconds(value: int) | NaN

  /** Within these bounds a number is an exact integer and prints in plain decimal, digit for digit. */
  const MAX_SAFE_INTEGER: int := 9007199254740991

  predicate Plain(t: Timestamp) {
    t.Seconds? ==> -MAX_SAFE_INTEGER <= t.value <= MAX_SAFE_INTEGER
  }

  // ---------------------------------------------------------------- decimal numbers

  function Digit(d: nat): char
    requires d < 10
  {
    '0' + d as char
  }

  predicate AllDigits(s: string) {
    forall i :: 0 <= i < |s| ==> '0' <= s[i] <= '9'
  }

  function Digits(n: nat): (s: string)
    ensures s != [] && AllDigits(s)
  {
    if n < 10 then [Digit(n)] else Digits(n / 10) + [Digit(n % 10)]
  }

  function ReadDigits(s: string): nat
    requires AllDigits(s)
  {
    if s == [] then 0 else 10 * ReadDigits(s[..|s| - 1]) + (s[|s| - 1] - '0') as nat
  }

  lemma {:induction false} DigitsReadBack(n: nat)
    ensures ReadDigits(Digits(n)) == n
  {
    if n < 10 {
      assert Digits(n)[..0] == [];
    } else {
      DigitsReadBack(n / 10);
      assert Digits(n)[..|Digits(n)| - 1] == Digits(n / 10);
    }
  }

  /** How a template literal prints a timestamp. */
  function Show(t: Timestamp): (s: string)
    requires Plain(t)
    ensures '\n' !in s
  {
    match t
    case NaN => "NaN"
    case Seconds(v) => if v < 0 then "-" + Digits(-v) else Digits(v)
  }

  function ReadTimestamp(s: string): Timestamp {
    if |s| > 1 && s[0] == '-' && AllDigits(s[1..]) then Seconds(-(ReadDigits(s[1..]) as int))
    else if s != [] && AllDigits(s) then Seconds(ReadDigits(s))
    else NaN
  }

  lemma TimestampReadBack(t: Timestamp)
    requires Plain(t)
    ensures ReadTimestamp(Show(t)) == t
  {
    match t {
      case NaN =>
        assert Show(NaN)[0] == 'N';
      case Seconds(v) =>
        if v < 0 {
          var digits := Digits(-v);
          assert Show(t) == "-" + digits && ("-" + digits)[1..] == digits;
          DigitsReadBack(-v);
        } else {
          assert '0' <= Digits(v)[0] <= '9';
          DigitsReadBack(v);
        }
    }
  }

  // ---------------------------------------------------------------- the payload

  function BuildCanonicalPayload(method_: string, targetUrl: string, nonce: string, timestamp: Timestamp): string
    requires Plain(timestamp)
  {
    method_ + "\n" + targetUrl + "\n" + nonce + "\n" + Show(timestamp)
  }

  /** The position of the first newline at or after i, or the length. */
  function FirstFrom(s: string, i: nat): nat
    requires i <= |s|
    decreases |s| - i
  {
    if i == |s| || s[i] == '\n' then i else FirstFrom(s, i + 1)
  }

  /** The position of the last newline before k, or -1. */
  function LastBefore(s: string, k: nat): (j: int)
    requires k <= |s|
    ensures -1 <= j < k
  {
    if k == 0 then -1 else if s[k - 1] == '\n' then k - 1 else LastBefore(s, k - 1)
  }

  lemma {:induction false} FirstFromIs(s: string, i: nat, j: nat)
    requires i <= j < |s| && s[j] == '\n' && forall x :: i <= x < j ==> s[x] != '\n'
    ensures FirstFrom(s, i) == j
    decreases j - i
  {
    if i < j {
      FirstFromIs(s, i + 1, j);
    }
  }

  lemma {:induction false} LastBeforeIs(s: string, j: nat, k: nat)
    requires j < k <= |s| && s[j] == '\n' && forall x :: j < x < k ==> s[x] != '\n'
    ensures LastBefore(s, k) == j
    decreases k - j
  {
    if j + 1 < k {
      LastBeforeIs(s, j, k - 1);
    }
  }

  datatype Parsed = Parsed(method_: string, targetUrl: string, nonce: string, timestamp: Timestamp) | Malformed

  /** Read a payload: the method up to the first newline, the timestamp after the last, the nonce between the last
      two, and the URL, whatever it contains, in between. */
  function Parse(payload: string): Parsed {
    var i, k := FirstFrom(payload, 0), LastBefore(payload, |payload|);
    var j := if k < 0 then -1 else LastBefore(payload, k);
    if j <= i then Malformed
    else Parsed(payload[0..i], payload[i + 1..j], payload[j + 1..k], ReadTimestamp(payload[k + 1..|payload|]))
  }

  ghost predicate NoNewline(s: string, from: nat, to: nat)
    requires to <= |s|
  {
    forall x :: from <= x < to ==> s[x] != '\n'
  }

  /** What is read when the first newline stands at i and the last two at j and k. */
  lemma ParseAt(payload: string, i: nat, j: nat, k: nat)
    requires i < j < k < |payload| && payload[i] == payload[j] == payload[k] == '\n'
    requires NoNewline(payload, 0, i) && NoNewline(payload, j + 1, k) && NoNewline(payload, k + 1, |payload|)
    ensures Parse(payload) ==
            Parsed(payload[0..i], payload[i + 1..j], payload[j + 1..k], ReadTimestamp(payload[k + 1..|payload|]))
  {
    FirstFromIs(payload, 0, i);
    LastBeforeIs(payload, k, |payload|);
    LastBeforeIs(payload, j, k);
  }

  lemma PartFree(payload: string, from: nat, to: nat)
    requires from <= to <= |payload| && '\n' !in payload[from..to]
    ensures NoNewline(payload, from, to)
  {
    assert forall x :: from <= x < to ==> payload[x] == payload[from..to][x - from];
  }

  /** The payload is the four parts with newlines between them. */
  ghost predicate Composed(payload: string, m: string, u: string, n: string, shown: string) {
    var i := |m|;
    var j := i + 1 + |u|;
    var k := j + 1 + |n|;
    && k < |payload| && payload[i] == payload[j] == payload[k] == '\n'
    && payload[0..i] == m && payload[i + 1..j] == u && payload[j + 1..k] == n && payload[k + 1..|payload|] == shown
  }

  lemma BuildComposes(m: string, u: string, n: string, t: Timestamp)
    requires Plain(t)
    ensures Composed(BuildCanonicalPayload(m, u, n, t), m, u, n, Show(t))
  {
  }

  lemma ComposedFree(payload: string, m: string, u: string, n: string, shown: string)
    requires '\n' !in m && '\n' !in n && '\n' !in shown && Composed(payload, m, u, n, shown)
    ensures var j := |m| + 1 + |u|; var k := j + 1 + |n|;
            k < |payload| && NoNewline(payload, 0, |m|) && NoNewline(payload, j + 1, k) &&
            NoNewline(payload, k + 1, |payload|)
  {
    var j := |m| + 1 + |u|;
    var k := j + 1 + |n|;
    PartFree(payload, 0, |m|);
    PartFree(payload, j + 1, k);
    PartFree(payload, k + 1, |payload|);
  }

  lemma ParseComposed(payload: string, m: string, u: string, n: string, shown: string)
    requires '\n' !in m && '\n' !in n && '\n' !in shown && Composed(payload, m, u, n, shown)
    ensures Parse(payload) == Parsed(m, u, n, ReadTimestamp(shown))
  {
    ComposedFree(payload, m, u, n, shown);
    ParseAt(payload, |m|, |m| + 1 + |u|, |m| + |u| + |n| + 2);
  }

  /** Building and parsing are inverse, for every URL, even one that contains newlines. */
  lemma ParseBuild(m: string, u: string, n: string, t: Timestamp)
    requires '\n' !in m && '\n' !in n && Plain(t)
    ensures Parse(BuildCanonicalPayload(m, u, n, t)) == Parsed(m, u, n, t)
  {
    BuildComposes(m, u, n, t);
    ParseComposed(BuildCanonicalPayload(m, u, n, t), m, u, n, Show(t));
    TimestampReadBack(t);
  }

  /** So two requests with the same payload are the same request: a signature for one covers no other. */
  lemma PayloadInjective(
      m: string, u: string, n: string, t: Timestamp, m': string, u': string, n': string, t': Timestamp)
    requires '\n' !in m && '\n' !in n && Plain(t) && '\n' !in m' && '\n' !in n' && Plain(t')
    requires BuildCanonicalPayload(m, u, n, t) == BuildCanonicalPayload(m', u', n', t')
    ensures m == m' && u == u' && n == n' && t == t'
  {
    ParseBuild(m, u, n, t);
    ParseBuild(m', u', n', t');
  }

  /** A nonce with a newline breaks this: part of it could as well belong to the URL. A nonce that comes in an HTTP
      header has none; this concerns other callers of the function. */
  lemma NewlineInNonceCollides(m: string, u: string, x: string, n: string, t: Timestamp)
    requires Plain(t)
    ensures BuildCanonicalPayload(m, u, x + "\n" + n, t) == BuildCanonicalPayload(m, u + "\n" + x, n, t)
    ensures u != u + "\n" + x
  {
    assert |u| < |u + "\n" + x|;
    assert u + "\n" + (x + "\n" + n) == (u + "\n" + x) + "\n" + n;
    assert m + "\n" + u + "\n" + (x + "\n" + n) == m + "\n" + (u + "\n" + (x + "\n" + n));
    assert m + "\n" + (u + "\n" + x) + "\n" + n == m + "\n" + ((u + "\n" + x) + "\n" + n);
  }

  /** Every request with the nonce shares its payload with no different request whose nonce has no newline. */
  ghost predicate Unmistakable(n: string) {
    forall m, u, t, m', u', n', t' ::
      '\n' !in m && '\n' !in m' && '\n' !in n' && Plain(t) && Plain(t') &&
      BuildCanonicalPayload(m, u, n, t) == BuildCanonicalPayload(m', u', n', t') ==>
        m == m' && u == u' && n == n' && t == t'
  }

  lemma {:induction false} SplitAtLast(n: string) returns (x: string, y: string)
    requires '\n' in n
    ensures n == x + "\n" + y && '\n' !in y
    decreases |n|
  {
    var init, last := n[..|n| - 1], n[|n| - 1];
    assert n == init + [last];
    if last == '\n' {
      return init, "";
    }
    x, y := SplitAtLast(init);
    y := y + [last];
  }

  /** A nonce is safe to sign over if and only if it has no newline. */
  lemma UnmistakableIff(n: string)
    ensures Unmistakable(n) <==> '\n' !in n
  {
    if '\n' in n {
      var x, y := SplitAtLast(n);
      NewlineInNonceCollides("", "", x, y, NaN);
      assert BuildCanonicalPayload("", "", n, NaN) == BuildCanonicalPayload("", "" + "\n" + x, y, NaN);
      assert n != y;
    } else {
      forall m, u, t, m', u', n', t' | '\n' !in m && '\n' !in m' && '\n' !in n' && Plain(t) && Plain(t') &&
          BuildCanonicalPayload(m, u, n, t) == BuildCanonicalPayload(m', u', n', t')
        ensures m == m' && u == u' && n == n' && t == t'
      {
        PayloadInjective(m, u, n, t, m', u', n', t');
      }
    }
  }

  /** Numbers print in plain decimal, by example. */
  lemma NumbersByExample()
    ensures Show(Seconds(0)) == "0" && Show(Seconds(1730)) == "1730"
    ensures Show(Seconds(-45)) == "-45" && Show(NaN) == "NaN"
  {
    assert Digits(1730) == Digits(173) + "0" && Digits(173) == Digits(17) + "3" && Digits(17) == Digits(1) + "7";
    assert Digits(45) == Digits(4) + "5";
  }

  /** The form of a payload: method, URL, nonce and timestamp, one on each line. */
  lemma PayloadIs(m: string, u: string, n: string, t: Timestamp)
    requires Plain(t)
    ensures BuildCanonicalPayload(m, u, n, t) == m + ("\n" + (u + ("\n" + (n + ("\n" + Show(t))))))
  {
  }

  /** The method stands before the first newline of a payload. */
  lemma MethodFirst(m: string, u: string, n: string, t: Timestamp)
    requires '\n' !in m && Plain(t)
    ensures var payload := BuildCanonicalPayload(m, u, n, t);
            FirstFrom(payload, 0) == |m| < |payload| && payload[0..|m|] == m
  {
    var payload := BuildCanonicalPayload(m, u, n, t);
    BuildComposes(m, u, n, t);
    PartFree(payload, 0, |m|);
    FirstFromIs(payload, 0, |m|);
  }
}
