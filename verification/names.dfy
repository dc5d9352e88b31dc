/** Instance names: the family name, one segment an argument, and the thread segment. */
module Names {
  import opened Common

  // ----- decimal text -----

  function DigitChar(d: nat): char
    requires d < 10
  {
    ('0' as int + d) as char
  }

  function Digits(n: nat): (s: string)
    ensures s != [] && forall i | 0 <= i < |s| :: '0' <= s[i] <= '9'
  {
    if n < 10 then [DigitChar(n)] else Digits(n / 10) + [DigitChar(n % 10)]
  }

  /** `std::to_string`. */
  function Decimal(n: int): (s: string)
    ensures s != [] && forall i | 0 <= i < |s| :: s[i] != '/'
  {
    if n < 0 then "-" + Digits(-n) else Digits(n)
  }

  lemma DigitsLength(n: nat)
    ensures |Digits(n)| == 1 <==> n < 10
    ensures Digits(n)[|Digits(n)| - 1] == DigitChar(n % 10)
    ensures n >= 10 ==> Digits(n)[..|Digits(n)| - 1] == Digits(n / 10)
  {
  }

  lemma {:induction false} DigitsTellApart(a: nat, b: nat)
    requires Digits(a) == Digits(b)
    ensures a == b
  {
    DigitsLength(a);
    DigitsLength(b);
    if a >= 10 { DigitsTellApart(a / 10, b / 10); }
  }

  lemma SignShows(a: int)
    ensures Decimal(a)[0] == '-' <==> a < 0
    ensures if a < 0 then Decimal(a)[1..] == Digits(-a) else Decimal(a) == Digits(a)
  {
  }

  lemma DecimalTellsApart(a: int, b: int)
    requires Decimal(a) == Decimal(b)
    ensures a == b
  {
    SignShows(a);
    SignShows(b);
    if a < 0 { DigitsTellApart(-a, -b); } else { DigitsTellApart(a, b); }
  }

  /** The number a text of digits reads as, most significant digit first. */
  function Reads(s: string): int {
    if s == "" then 0 else Reads(s[..|s| - 1]) * 10 + (s[|s| - 1] as int - '0' as int)
  }

  lemma {:induction false} DigitsReadBack(n: nat)
    ensures Reads(Digits(n)) == n && (n > 0 ==> Digits(n)[0] != '0')
  {
    DigitsLength(n);
    assert Digits(n)[..|Digits(n)| - 1] == if n < 10 then "" else Digits(n / 10);
    if n >= 10 { DigitsReadBack(n / 10); }
  }

  /** The text of a number reads back as it, behind a sign where it is negative, and has no
      leading zero. */
  lemma DecimalReadsBack(n: int)
    ensures if n < 0 then Decimal(n)[0] == '-' && Reads(Decimal(n)[1..]) == -n else Reads(Decimal(n)) == n
    ensures n > 0 ==> Decimal(n)[0] != '0'
    ensures n < 0 ==> |Decimal(n)| > 1 && Decimal(n)[1] != '0'
  {
    SignShows(n);
    DigitsReadBack(if n < 0 then -n else n);
  }

  // ----- names -----

  /** What opens the segment of an argument: the separator and its label where one is set. */
  function Opening(text: string): string {
    "/" + (if text == "" then "" else text + ":")
  }

  function Head(labels: seq<string>): string {
    Opening(if labels == [] then "" else labels[0])
  }

  function Rest(labels: seq<string>): seq<string> {
    if labels == [] then [] else labels[1..]
  }

  /** All that stands behind the family name. */
  function Tail(labels: seq<string>, arguments: seq<int>, threadCount: int): string {
    if arguments == [] then
      if threadCount > 1 then "/threads:" + Decimal(threadCount) else ""
    else Head(labels) + (Decimal(arguments[0]) + Tail(Rest(labels), arguments[1..], threadCount))
  }

  function NameOf(family: string, labels: seq<string>, arguments: seq<int>, threadCount: int): string {
    family + Tail(labels, arguments, threadCount)
  }

  /** One segment an argument, its text before it, and the thread segment last and only
      for more than one thread. */
  lemma NameSpelled(family: string, text: string, a: int, b: int, threadCount: int)
    requires text != ""
    ensures NameOf(family, [text, ""], [a, b], threadCount)
         == family + ("/" + text + ":" + Decimal(a)) + ("/" + Decimal(b))
            + (if threadCount > 1 then "/threads:" + Decimal(threadCount) else "")
  {
    assert Rest([text, ""]) == [""] && Rest([""]) == [];
    assert [a, b][1..] == [b] && [b][1..] == [];
    var last := Tail([], [], threadCount);
    assert Opening("") == "/";
    assert Tail([""], [b], threadCount) == "/" + (Decimal(b) + last);
  }

  method AddSegment(before: string, text: string, argument: int) returns (name: string)
    ensures name == before + (Opening(text) + Decimal(argument))
  {
    name := before + "/";
    if text != "" {
      name := name + text + ":";
    }
    name := name + Decimal(argument);
  }

  /** The labels a position has left; a family without labels has none anywhere. */
  function LabelsFrom(labels: seq<string>, position: nat): seq<string> {
    if position <= |labels| then labels[position..] else []
  }

  /** `instanceName`. */
  method InstanceName(family: string, labels: seq<string>, arguments: seq<int>, threadCount: int) returns (name: string)
    requires labels == [] || |labels| == |arguments|
    ensures name == NameOf(family, labels, arguments, threadCount)
  {
    name := family;
    for position := 0 to |arguments|
      invariant NameOf(family, labels, arguments, threadCount)
             == name + Tail(LabelsFrom(labels, position), arguments[position..], threadCount)
    {
      var text := if position < |labels| then labels[position] else "";
      TailFrom(name, labels, arguments, position, threadCount, text);
      name := AddSegment(name, text, arguments[position]);
    }
    name := AddThreads(name, threadCount);
  }

  method AddThreads(before: string, threadCount: int) returns (name: string)
    ensures forall labels :: name == before + Tail(labels, [], threadCount)
  {
    name := before;
    if threadCount > 1 {
      name := name + ("/threads:" + Decimal(threadCount));
    }
  }

  lemma TailFrom(name: string, labels: seq<string>, arguments: seq<int>, position: nat, threadCount: int, text: string)
    requires position < |arguments| && (labels == [] || |labels| == |arguments|)
    requires text == if position < |labels| then labels[position] else ""
    ensures name + Tail(LabelsFrom(labels, position), arguments[position..], threadCount)
         == name + (Opening(text) + Decimal(arguments[position]))
            + Tail(LabelsFrom(labels, position + 1), arguments[position + 1..], threadCount)
  {
    var left := LabelsFrom(labels, position);
    assert Head(left) == Opening(text) && Rest(left) == LabelsFrom(labels, position + 1);
    assert arguments[position..][1..] == arguments[position + 1..];
  }

  // ----- names tell instances apart -----

  predicate OpensSegment(s: string) {
    s == "" || s[0] == '/'
  }

  lemma NotShorter(x: string, y: string, u: string, v: string)
    requires Slashless(y) && OpensSegment(u)
    ensures x + u == y + v ==> |x| >= |y|
  {
    if |x| < |y| {
      assert (y + v)[|x|] == y[|x|];
      if u != "" { assert (x + u)[|x|] == '/'; }
    }
  }

  /** Text without a separator, then nothing or a separator, splits one way only. */
  lemma SplitsOnce(x: string, y: string, u: string, v: string)
    requires Slashless(x) && Slashless(y) && OpensSegment(u) && OpensSegment(v) && x + u == y + v
    ensures x == y && u == v
  {
    NotShorter(x, y, u, v);
    NotShorter(y, x, v, u);
    assert x == (x + u)[..|x|] && y == (y + v)[..|y|];
    assert u == (x + u)[|x|..] && v == (y + v)[|y|..];
  }

  lemma TailOpens(labels: seq<string>, arguments: seq<int>, threadCount: int)
    ensures OpensSegment(Tail(labels, arguments, threadCount))
  {
  }

  lemma SamePrefix(p: string, x: string, y: string)
    requires p + x == p + y
    ensures x == y
  {
    assert x == (p + x)[|p|..] && y == (p + y)[|p|..];
  }

  lemma ThreadsTellApart(s: int, t: int)
    requires s >= 1 && t >= 1 && Tail([], [], s) == Tail([], [], t)
    ensures s == t
  {
    if s > 1 && t > 1 {
      SamePrefix("/threads:", Decimal(s), Decimal(t));
      DecimalTellsApart(s, t);
    }
  }

  lemma {:induction false} TailTellsApart(labels: seq<string>, a: seq<int>, b: seq<int>, s: int, t: int)
    requires |a| == |b| && s >= 1 && t >= 1 && Tail(labels, a, s) == Tail(labels, b, t)
    ensures a == b && s == t
    decreases |a|
  {
    if a == [] {
      ThreadsTellApart(s, t);
    } else {
      var u, v := Tail(Rest(labels), a[1..], s), Tail(Rest(labels), b[1..], t);
      SamePrefix(Head(labels), Decimal(a[0]) + u, Decimal(b[0]) + v);
      TailOpens(Rest(labels), a[1..], s);
      TailOpens(Rest(labels), b[1..], t);
      SplitsOnce(Decimal(a[0]), Decimal(b[0]), u, v);
      DecimalTellsApart(a[0], b[0]);
      TailTellsApart(Rest(labels), a[1..], b[1..], s, t);
      assert a == [a[0]] + a[1..] && b == [b[0]] + b[1..];
    }
  }

  /** Within one family of one arity, whatever its labels hold, a name belongs to one
      argument list and one thread count. */
  lemma NameTellsInstancesApart(family: string, labels: seq<string>, a: seq<int>, b: seq<int>, s: int, t: int)
    requires |a| == |b| && s >= 1 && t >= 1
    ensures NameOf(family, labels, a, s) == NameOf(family, labels, b, t) <==> a == b && s == t
  {
    if NameOf(family, labels, a, s) == NameOf(family, labels, b, t) {
      SamePrefix(family, Tail(labels, a, s), Tail(labels, b, t));
      TailTellsApart(labels, a, b, s, t);
    }
  }

  // ----- suite and case -----

  /** The text up to its first separator. */
  function UpToSlash(s: string): (r: string)
    ensures Slashless(r) && r <= s && OpensSegment(s[|r|..])
  {
    if s == "" || s[0] == '/' then "" else [s[0]] + UpToSlash(s[1..])
  }

  lemma UpToSlashIs(s: string, r: string, rest: string)
    requires s == r + rest && Slashless(r) && OpensSegment(rest)
    ensures UpToSlash(s) == r
  {
    var found := UpToSlash(s);
    assert s == found + s[|found|..];
    SplitsOnce(found, r, s[|found|..], rest);
  }

  /** `deriveSuiteAndCase`. */
  function SuiteOf(family: string): string {
    UpToSlash(family)
  }

  function CaseOf(family: string, name: string): string
    requires family <= name
  {
    var suite := UpToSlash(family);
    if |name| > |suite| then name[|suite| + 1..] else name
  }

  lemma {:induction false} SuiteStays(family: string, tail: string)
    requires OpensSegment(tail)
    ensures UpToSlash(family + tail) == UpToSlash(family)
    decreases |family|
  {
    if family == "" {
      assert family + tail == tail;
    } else {
      assert (family + tail)[1..] == family[1..] + tail;
      SuiteStays(family[1..], tail);
    }
  }

  /** The suite can be read off the instance name alone: it is the same text. */
  lemma SuiteIsOfTheName(family: string, labels: seq<string>, arguments: seq<int>, threadCount: int)
    ensures UpToSlash(NameOf(family, labels, arguments, threadCount)) == SuiteOf(family)
  {
    TailOpens(labels, arguments, threadCount);
    SuiteStays(family, Tail(labels, arguments, threadCount));
  }

  /** The case of an instance, from its name. */
  function CaseOfName(name: string): string {
    var suite := UpToSlash(name);
    if |name| > |suite| then name[|suite| + 1..] else name
  }

  /** Suite and case put the instance name together again: the case is all of a name that is
      its suite alone, and otherwise what stands behind the suite and a separator. */
  lemma SuiteAndCaseMakeTheName(family: string, labels: seq<string>, arguments: seq<int>, threadCount: int)
    ensures var name, suite := NameOf(family, labels, arguments, threadCount), SuiteOf(family);
            && family <= name && Slashless(suite)
            && CaseOf(family, name) == CaseOfName(name)
            && (if name == suite then CaseOf(family, name) == suite else name == suite + "/" + CaseOf(family, name))
  {
    SuiteIsOfTheName(family, labels, arguments, threadCount);
    Shape(NameOf(family, labels, arguments, threadCount));
  }

  /** A suite alone, and that suite within itself. */
  predicate Doubles(n: string, m: string) {
    Slashless(n) && m == n + "/" + n
  }

  /** Two names share suite and case exactly when they are equal, or are a suite alone and
      that suite within itself: `s` and `s/s`. So the pair does not always name one
      instance. */
  lemma PairNamesOneInstanceIff(n: string, m: string)
    ensures UpToSlash(n) == UpToSlash(m) && CaseOfName(n) == CaseOfName(m)
       <==> n == m || Doubles(n, m) || Doubles(m, n)
  {
    Shape(n);
    Shape(m);
    if Doubles(n, m) { DoublesShare(n, m); }
    if Doubles(m, n) { DoublesShare(m, n); }
  }

  lemma DoublesShare(n: string, m: string)
    requires Doubles(n, m)
    ensures UpToSlash(m) == n == UpToSlash(n) && CaseOfName(m) == n == CaseOfName(n)
  {
    assert m == n + ("/" + n);
    UpToSlashIs(m, n, "/" + n);
    UpToSlashIs(n, n, "");
  }

  /** A name is its suite alone, or its suite, a separator and its case. */
  lemma Shape(n: string)
    ensures var s := UpToSlash(n);
            if |n| == |s| then n == s && CaseOfName(n) == n else n == s + "/" + CaseOfName(n)
  {
    var s := UpToSlash(n);
    assert n == s + n[|s|..];
  }

  /** A family `a` and a family `a/a`, both with no arguments, share suite and case. */
  lemma SuiteAndCaseCanRepeat()
    ensures "a" != "a/a" && UpToSlash("a") == UpToSlash("a/a") && CaseOfName("a") == CaseOfName("a/a")
  {
    assert "a/a" == "a" + "/" + "a";
    DoublesShare("a", "a/a");
  }
}
