/** Outcome labels: the decimal text of an integer (i_to_string) and the
    label "|b1,b2,...><b1,b2,...|" a projective measurement gives the basis
    vector with tuple (b1, b2, ...). */
module Labels {

  function Digit(d: int): char
    requires 0 <= d < 10
  {
    (48 + d) as char
  }

  predicate IsDigit(c: char) {
    '0' <= c <= '9'
  }

  function DigitValue(c: char): int {
    c as int - 48
  }

  /** The decimal digits of n, most significant first, no leading zeros. */
  function NatToString(n: nat): (s: string)
    ensures |s| >= 1 && forall i :: 0 <= i < |s| ==> IsDigit(s[i])
  {
    if n < 10 then [Digit(n)] else NatToString(n / 10) + [Digit(n % 10)]
  }

  /** i_to_string: what `stringstream << int` writes, a minus sign before
      the digits of a negative number. */
  function IntToString(i: int): string {
    if i < 0 then "-" + NatToString(-i) else NatToString(i)
  }

  /** Reading decimal digits back, most significant first. */
  function ParseNat(s: string): int {
    if |s| == 0 then 0 else ParseNat(s[..|s| - 1]) * 10 + DigitValue(s[|s| - 1])
  }

  function ParseInt(s: string): int {
    if |s| > 0 && s[0] == '-' then -ParseNat(s[1..]) else ParseNat(s)
  }

  lemma {:induction false} ParseNatToString(n: nat)
    ensures ParseNat(NatToString(n)) == n
  {
    var s := NatToString(n);
    if n < 10 {
      assert s[..0] == [];
    } else {
      ParseNatToString(n / 10);
      assert s[..|s| - 1] == NatToString(n / 10);
    }
  }

  /** The decimal text of an integer reads back as that integer, so
      different integers get different texts. */
  lemma IntToStringRoundTrip(i: int)
    ensures ParseInt(IntToString(i)) == i
  {
    if i < 0 {
      ParseNatToString(-i);
      assert IntToString(i)[1..] == NatToString(-i);
    } else {
      ParseNatToString(i);
    }
  }

  /** The texts contain neither the separator nor the frame characters. */
  lemma IntToStringChars(i: int)
    ensures |IntToString(i)| >= 1 && ',' !in IntToString(i)
    ensures '|' !in IntToString(i) && '<' !in IntToString(i) && '>' !in IntToString(i)
  {
    var s := IntToString(i);
    forall k | 0 <= k < |s|
      ensures s[k] != ',' && s[k] != '|' && s[k] != '<' && s[k] != '>'
    {
      if i < 0 && k > 0 {
        assert s[k] == NatToString(-i)[k - 1];
      }
    }
  }

  /** The parts joined with commas, as the label loop builds them: a comma
      before every part except the first. */
  function Join(parts: seq<string>): string {
    if |parts| == 0 then ""
    else if |parts| == 1 then parts[0]
    else Join(parts[..|parts| - 1]) + "," + parts[|parts| - 1]
  }

  function Texts(v: seq<int>): (t: seq<string>)
    ensures |t| == |v|
  {
    seq(|v|, i requires 0 <= i < |v| => IntToString(v[i]))
  }

  /** Proector::_vecToLabel: the joined texts, written twice as a ket and
      a bra. */
  function Label(v: seq<int>): string {
    "|" + Join(Texts(v)) + "><" + Join(Texts(v)) + "|"
  }

  /** The loop of _vecToLabel: appends a comma unless at the first entry,
      then the entry's text. */
  method VecToLabel(v: seq<int>) returns (text: string)
    ensures text == Label(v)
  {
    var s := "";
    for i := 0 to |v|
      invariant s == Join(Texts(v)[..i])
    {
      var t := Texts(v);
      assert t[..i + 1][..i] == t[..i];
      if i != 0 {
        s := s + ",";
      }
      s := s + IntToString(v[i]);
    }
    assert Texts(v)[..|v|] == Texts(v);
    text := "|" + s + "><" + s + "|";
  }

  predicate CommaFree(parts: seq<string>) {
    forall i :: 0 <= i < |parts| ==> |parts[i]| >= 1 && ',' !in parts[i]
  }

  /** The length of the comma-free end of a text. */
  function TailLen(s: string): nat {
    if |s| == 0 || s[|s| - 1] == ',' then 0 else 1 + TailLen(s[..|s| - 1])
  }

  lemma {:induction false} TailLength(a: string, x: string)
    requires ',' !in x
    ensures TailLen(a + "," + x) == |x|
  {
    if |x| > 0 {
      var x' := x[..|x| - 1];
      assert (a + "," + x)[..|a + "," + x| - 1] == a + "," + x';
      TailLength(a, x');
    } else {
      assert a + "," + x == a + ",";
    }
  }

  /** A comma-free non-empty tail after a comma is the text after the last
      comma, so it is determined by the joined string. */
  lemma LastPartDetermined(a: string, x: string, b: string, y: string)
    requires a + "," + x == b + "," + y
    requires ',' !in x && ',' !in y
    ensures x == y && a == b
  {
    var s := a + "," + x;
    TailLength(a, x);
    TailLength(b, y);
    assert |a| == |b|;
    assert a == s[..|a|] == b;
    assert x == s[|a| + 1..] == y;
  }

  /** No parts join to the empty text, one part to a text without a comma,
      two or more to a text with one. */
  lemma {:induction false} JoinShape(parts: seq<string>)
    requires CommaFree(parts)
    ensures |parts| == 0 <==> Join(parts) == ""
    ensures |parts| == 1 ==> ',' !in Join(parts)
    ensures |parts| >= 2 ==> ',' in Join(parts)
  {
    if |parts| >= 2 {
      var a := Join(parts[..|parts| - 1]);
      assert Join(parts)[|a|] == ',';
    } else if |parts| == 1 {
      assert |parts[0]| >= 1;
    }
  }

  /** Comma-free non-empty parts are recovered from their join. */
  lemma {:induction false} JoinInjective(p: seq<string>, q: seq<string>)
    requires CommaFree(p) && CommaFree(q) && Join(p) == Join(q)
    ensures p == q
    decreases |p|
  {
    JoinShape(p);
    JoinShape(q);
    if |p| >= 2 {
      var p', q' := p[..|p| - 1], q[..|q| - 1];
      LastPartDetermined(Join(p'), p[|p| - 1], Join(q'), q[|q| - 1]);
      JoinInjective(p', q');
      assert p == p' + [p[|p| - 1]] && q == q' + [q[|q| - 1]];
    }
  }

  lemma TextsCommaFree(v: seq<int>)
    ensures CommaFree(Texts(v))
  {
    forall i | 0 <= i < |v|
      ensures |Texts(v)[i]| >= 1 && ',' !in Texts(v)[i]
    {
      IntToStringChars(v[i]);
    }
  }

  lemma TextsInjective(v: seq<int>, w: seq<int>)
    requires Texts(v) == Texts(w)
    ensures v == w
  {
    forall i | 0 <= i < |v|
      ensures v[i] == w[i]
    {
      assert Texts(v)[i] == Texts(w)[i];
      IntToStringRoundTrip(v[i]);
      IntToStringRoundTrip(w[i]);
    }
  }

  /** The ket half of a framed text gives the text back. */
  lemma KetOfFrame(j: string)
    ensures |"|" + j + "><" + j + "|"| == 2 * |j| + 4
    ensures ("|" + j + "><" + j + "|")[1..1 + |j|] == j
  {
  }

  /** Different tuples get different labels. */
  lemma LabelInjective(v: seq<int>, w: seq<int>)
    requires Label(v) == Label(w)
    ensures v == w
  {
    var j, k := Join(Texts(v)), Join(Texts(w));
    KetOfFrame(j);
    KetOfFrame(k);
    TextsCommaFree(v);
    TextsCommaFree(w);
    JoinInjective(Texts(v), Texts(w));
    TextsInjective(v, w);
  }

  /** The label of the basis tuple (0, 1) is "|0,1><0,1|". */
  lemma LabelOfZeroOne()
    ensures Label([0, 1]) == "|0,1><0,1|"
  {
    assert Texts([0, 1]) == ["0", "1"];
    assert Join(["0", "1"]) == Join(["0"]) + "," + "1";
  }
}
