/** Keys of the ordered edit-log store: packed tuples of strings that end in an ISO timestamp. */
module StoreKeys {
  import opened Ordering
  import opened Text

  // ── Instants ──

  /** A UTC date and time, field by field. */
  datatype Instant = Instant(year: nat, month: nat, day: nat, hour: nat, minute: nat, second: nat, micro: nat)

  predicate InRange(t: Instant) {
    t.year < 10000 && t.month < 100 && t.day < 100 && t.hour < 100 && t.minute < 100 && t.second < 100
    && t.micro < 1000000
  }

  function Parts(t: Instant): seq<nat> {
    [t.year, t.month, t.day, t.hour, t.minute, t.second]
  }

  predicate Before(a: Instant, b: Instant) {
    LexLess(Parts(a), Parts(b)) || (Parts(a) == Parts(b) && a.micro < b.micro)
  }

  predicate LexLess(a: seq<nat>, b: seq<nat>)
    requires |a| == |b|
  {
    a != [] && (a[0] < b[0] || (a[0] == b[0] && LexLess(a[1..], b[1..])))
  }

  lemma {:induction false} LexAsymmetric(a: seq<nat>, b: seq<nat>)
    requires |a| == |b|
    ensures LexLess(a, b) ==> !LexLess(b, a)
    ensures !LexLess(a, a)
  {
    if a == [] {
    } else {
      LexAsymmetric(a[1..], b[1..]);
    }
  }

  lemma {:induction false} LexTransitive(a: seq<nat>, b: seq<nat>, c: seq<nat>)
    requires |a| == |b| == |c| && LexLess(a, b) && LexLess(b, c)
    ensures LexLess(a, c)
  {
    if a[0] == b[0] == c[0] {
      LexTransitive(a[1..], b[1..], c[1..]);
    }
  }

  lemma BeforeAsymmetric(a: Instant, b: Instant)
    requires Before(a, b)
    ensures !Before(b, a)
  {
    LexAsymmetric(Parts(a), Parts(b));
  }

  lemma BeforeTransitive(a: Instant, b: Instant, c: Instant)
    requires Before(a, b) && Before(b, c)
    ensures Before(a, c)
  {
    if LexLess(Parts(a), Parts(b)) && LexLess(Parts(b), Parts(c)) {
      LexTransitive(Parts(a), Parts(b), Parts(c));
    }
  }

  // ── ISO text ──

  function Digit(n: nat): char {
    ('0' as int + n % 10) as char
  }

  /** The last `width` decimal digits. */
  function Pad(n: nat, width: nat): (s: string)
    ensures |s| == width
  {
    if width == 0 then "" else Pad(n / 10, width - 1) + [Digit(n)]
  }

  const WIDTHS: seq<nat> := [4, 2, 2, 2, 2, 2]
  const SEPARATORS: seq<string> := ["-", "-", "T", ":", ":", ""]

  function Layout(parts: seq<nat>, widths: seq<nat>, separators: seq<string>): string
    requires |parts| == |widths| == |separators|
  {
    if parts == [] then ""
    else Pad(parts[0], widths[0]) + separators[0] + Layout(parts[1..], widths[1..], separators[1..])
  }

  /** The offset, after the microseconds unless they are zero. */
  function Fraction(micro: nat): string {
    (if micro == 0 then "" else "." + Pad(micro, 6)) + "+00:00"
  }

  function Iso(t: Instant): string {
    Layout(Parts(t), WIDTHS, SEPARATORS) + Fraction(t.micro)
  }

  // ── ISO order is time order ──

  function Pow10(n: nat): nat {
    if n == 0 then 1 else 10 * Pow10(n - 1)
  }

  /** The order of texts whose first parts are equally long. */
  lemma {:induction false} OrderOfParts(x: string, y: string, s: string, t: string)
    requires |x| == |y|
    ensures StrLess(x + s, y + t) <==> StrLess(x, y) || (x == y && StrLess(s, t))
  {
    if x == "" {
      assert x + s == s && y + t == t;
    } else {
      assert (x + s)[1..] == x[1..] + s && (y + t)[1..] == y[1..] + t;
      OrderOfParts(x[1..], y[1..], s, t);
      assert x == [x[0]] + x[1..] && y == [y[0]] + y[1..];
    }
  }

  lemma {:induction false} OrderOfPadded(m: nat, n: nat, width: nat)
    requires m < Pow10(width) && n < Pow10(width)
    ensures StrLess(Pad(m, width), Pad(n, width)) <==> m < n
    ensures Pad(m, width) == Pad(n, width) <==> m == n
  {
    if width == 0 {
    } else {
      OrderOfPadded(m / 10, n / 10, width - 1);
      var x, y := Pad(m / 10, width - 1), Pad(n / 10, width - 1);
      OrderOfParts(x, y, [Digit(m)], [Digit(n)]);
      StrLessTrichotomy(Pad(m, width), Pad(n, width));
      assert Pad(m, width)[..width - 1] == x && Pad(n, width)[..width - 1] == y;
      assert Pad(m, width)[width - 1] == Digit(m) && Pad(n, width)[width - 1] == Digit(n);
    }
  }

  lemma OrderOfLayer(x: string, y: string, separator: string, s: string, t: string)
    requires |x| == |y|
    ensures StrLess(x + separator + s, y + separator + t) <==> StrLess(x, y) || (x == y && StrLess(s, t))
  {
    assert x + separator + s == x + (separator + s) && y + separator + t == y + (separator + t);
    OrderOfParts(x, y, separator + s, separator + t);
    StrLessPrefix(separator, s, t);
  }

  lemma LayoutThen(a: seq<nat>, widths: seq<nat>, separators: seq<string>, s: string)
    requires a != [] && |a| == |widths| == |separators|
    ensures Layout(a, widths, separators) + s
         == Pad(a[0], widths[0]) + separators[0] + (Layout(a[1..], widths[1..], separators[1..]) + s)
  {
    Associate(Pad(a[0], widths[0]) + separators[0], Layout(a[1..], widths[1..], separators[1..]), s);
  }

  lemma Associate(a: string, b: string, c: string)
    ensures (a + b) + c == a + (b + c)
  {
  }

  lemma {:induction false} OrderOfLayouts(a: seq<nat>, b: seq<nat>, widths: seq<nat>, separators: seq<string>,
                                          s: string, t: string)
    requires |a| == |b| == |widths| == |separators|
    requires forall i :: 0 <= i < |a| ==> a[i] < Pow10(widths[i]) && b[i] < Pow10(widths[i])
    ensures StrLess(Layout(a, widths, separators) + s, Layout(b, widths, separators) + t)
       <==> LexLess(a, b) || (a == b && StrLess(s, t))
  {
    if a == [] {
      assert Layout(a, widths, separators) + s == s && Layout(b, widths, separators) + t == t;
    } else {
      OrderOfLayouts(a[1..], b[1..], widths[1..], separators[1..], s, t);
      OrderOfPadded(a[0], b[0], widths[0]);
      LayoutThen(a, widths, separators, s);
      LayoutThen(b, widths, separators, t);
      OrderOfLayer(Pad(a[0], widths[0]), Pad(b[0], widths[0]), separators[0],
                   Layout(a[1..], widths[1..], separators[1..]) + s, Layout(b[1..], widths[1..], separators[1..]) + t);
      assert a == b <==> a[0] == b[0] && a[1..] == b[1..] by {
        assert a == [a[0]] + a[1..] && b == [b[0]] + b[1..];
      }
    }
  }

  /** Microseconds order last; their absence sorts first because '+' sorts before '.'. */
  lemma OrderOfFractions(m: nat, n: nat)
    requires m < 1000000 && n < 1000000
    ensures StrLess(Fraction(m), Fraction(n)) <==> m < n
  {
    assert Pow10(6) == 1000000;
    OrderOfPadded(m, n, 6);
    if m != 0 && n != 0 {
      var x, y := "." + Pad(m, 6), "." + Pad(n, 6);
      StrLessPrefix(".", Pad(m, 6), Pad(n, 6));
      OrderOfParts(x, y, "+00:00", "+00:00");
      StrLessTrichotomy("+00:00", "+00:00");
    } else if m == n {
      StrLessTrichotomy(Fraction(m), Fraction(n));
    } else {
      assert Fraction(m)[0] != Fraction(n)[0];
    }
  }

  /** Sorting ISO texts is sorting by time. */
  lemma IsoOrderIsTimeOrder(a: Instant, b: Instant)
    requires InRange(a) && InRange(b)
    ensures StrLess(Iso(a), Iso(b)) <==> Before(a, b)
  {
    assert Pow10(4) == 10000 && Pow10(2) == 100;
    OrderOfLayouts(Parts(a), Parts(b), WIDTHS, SEPARATORS, Fraction(a.micro), Fraction(b.micro));
    OrderOfFractions(a.micro, b.micro);
  }

  lemma {:induction false} LexTotal(a: seq<nat>, b: seq<nat>)
    requires |a| == |b|
    ensures LexLess(a, b) || LexLess(b, a) || a == b
  {
    if a == [] {
    } else {
      LexTotal(a[1..], b[1..]);
      assert a == [a[0]] + a[1..] && b == [b[0]] + b[1..];
    }
  }

  lemma BeforeTotal(a: Instant, b: Instant)
    ensures Before(a, b) || Before(b, a) || a == b
  {
    LexTotal(Parts(a), Parts(b));
    if Parts(a) == Parts(b) {
      forall i | 0 <= i < 6 ensures Parts(a)[i] == Parts(b)[i] {}
      assert Parts(a)[0] == a.year && Parts(a)[1] == a.month && Parts(a)[2] == a.day;
      assert Parts(a)[3] == a.hour && Parts(a)[4] == a.minute && Parts(a)[5] == a.second;
    }
  }

  lemma IsoInjective(a: Instant, b: Instant)
    requires InRange(a) && InRange(b) && Iso(a) == Iso(b)
    ensures a == b
  {
    IsoOrderIsTimeOrder(a, b);
    IsoOrderIsTimeOrder(b, a);
    StrLessTrichotomy(Iso(a), Iso(b));
    BeforeTotal(a, b);
  }

  // ── Packed keys ──

  /** Strings are taken in their byte encoding; a NUL inside one is followed by an escape byte. */
  function Escape(s: string): string {
    if s == "" then "" else (if s[0] == '\0' then ['\0', ESCAPE] else [s[0]]) + Escape(s[1..])
  }

  const ESCAPE := '\U{00FF}'
  const STRING_TYPE := '\U{0002}'

  function PackString(s: string): string {
    [STRING_TYPE] + Escape(s) + ['\0']
  }

  function Pack(parts: seq<string>): string {
    if parts == [] then "" else PackString(parts[0]) + Pack(parts[1..])
  }

  /** Ends, or goes on with another packed string. */
  predicate PackEnd(s: string) {
    s == "" || s[0] == STRING_TYPE
  }

  function Tail(p: string, s: string): string {
    Escape(p) + "\0" + s
  }

  /** How an escaped and terminated string starts. */
  lemma TailHead(p: string, s: string)
    ensures p == "" ==> Tail(p, s)[0] == '\0' && Tail(p, s)[1..] == s
    ensures p != "" && p[0] == '\0' ==>
              |Tail(p, s)| > 2 && Tail(p, s)[0] == '\0' && Tail(p, s)[1] == ESCAPE && Tail(p, s)[2..] == Tail(p[1..], s)
    ensures p != "" && p[0] != '\0' ==> Tail(p, s)[0] == p[0] && Tail(p, s)[1..] == Tail(p[1..], s)
  {
    if p == "" {
      assert Tail(p, s) == "\0" + s;
    } else if p[0] == '\0' {
      assert Tail(p, s) == ['\0', ESCAPE] + Tail(p[1..], s);
    } else {
      assert Tail(p, s) == [p[0]] + Tail(p[1..], s);
    }
  }

  lemma StartsTail(s: string, prefix: string, n: nat)
    requires StartsWith(s, prefix) && n <= |prefix|
    ensures StartsWith(s[n..], prefix[n..])
    ensures forall i :: 0 <= i < |prefix| ==> s[i] == prefix[i]
  {
    assert s[n..][..|prefix| - n] == s[..|prefix|][n..];
    forall i | 0 <= i < |prefix| ensures s[i] == prefix[i] {
      assert s[i] == s[..|prefix|][i];
    }
  }

  /** One packed string is a prefix of another only by being equal, as long as NULs cannot be mistaken. */
  lemma {:induction false} EscapedPrefix(p: string, q: string, s: string, t: string)
    requires PackEnd(s) && PackEnd(t)
    requires StartsWith(Tail(p, s), Tail(q, t))
    requires t == "" ==> '\0' !in p
    ensures p == q && StartsWith(s, t)
  {
    TailHead(p, s);
    TailHead(q, t);
    StartsTail(Tail(p, s), Tail(q, t), 0);
    assert t == "" && p != "" ==> p[0] in p;
    assert p == "" <==> q == "";
    if p == "" {
      StartsTail(Tail(p, s), Tail(q, t), 1);
    } else {
      assert p[0] == q[0];
      StartsTail(Tail(p, s), Tail(q, t), if p[0] == '\0' then 2 else 1);
      EscapedPrefix(p[1..], q[1..], s, t);
      assert p == [p[0]] + p[1..] && q == [q[0]] + q[1..];
    }
  }

  lemma PackIsTail(parts: seq<string>)
    requires parts != []
    ensures Pack(parts) == [STRING_TYPE] + Tail(parts[0], Pack(parts[1..]))
  {
    Associate([STRING_TYPE] + Escape(parts[0]), "\0", Pack(parts[1..]));
    Associate([STRING_TYPE], Escape(parts[0]), "\0" + Pack(parts[1..]));
    Associate(Escape(parts[0]), "\0", Pack(parts[1..]));
  }

  /** A prefix scan over packed tuples is a filter on their leading parts. */
  lemma {:induction false} PrefixIsFilter(parts: seq<string>, leading: seq<string>)
    requires |leading| <= |parts| && (leading != [] ==> '\0' !in parts[|leading| - 1])
    ensures StartsWith(Pack(parts), Pack(leading)) <==> parts[..|leading|] == leading
  {
    if leading == [] {
    } else {
      PackIsTail(parts);
      PackIsTail(leading);
      PrefixIsFilter(parts[1..], leading[1..]);
      var s, t := Pack(parts[1..]), Pack(leading[1..]);
      if StartsWith(Pack(parts), Pack(leading)) {
        StartsTail(Pack(parts), Pack(leading), 1);
        EscapedPrefix(parts[0], leading[0], s, t);
      }
      assert parts[..|leading|] == [parts[0]] + parts[1..][..|leading| - 1];
      if parts[..|leading|] == leading {
        assert parts[..|leading|][1..] == leading[1..] && parts[0] == leading[0];
        StartsCons([STRING_TYPE] + Escape(parts[0]) + "\0", s, t);
      }
    }
  }

  lemma StartsCons(head: string, s: string, t: string)
    requires StartsWith(s, t)
    ensures StartsWith(head + s, head + t)
  {
    assert (head + s)[..|head + t|] == head + s[..|t|];
  }

  lemma {:induction false} EscapeIdle(s: string)
    requires '\0' !in s
    ensures Escape(s) == s
  {
    if s == "" {
    } else {
      assert s[0] in s;
      EscapeIdle(s[1..]);
    }
  }

  lemma {:induction false} OrderOfTerminated(s: string, t: string)
    requires '\0' !in s && '\0' !in t
    ensures StrLess(s + "\0", t + "\0") <==> StrLess(s, t)
  {
    assert s != "" ==> s[0] in s && (s + "\0")[0] == s[0] && (s + "\0")[1..] == s[1..] + "\0";
    assert t != "" ==> t[0] in t && (t + "\0")[0] == t[0] && (t + "\0")[1..] == t[1..] + "\0";
    if s != "" && t != "" {
      OrderOfTerminated(s[1..], t[1..]);
    }
  }

  lemma {:induction false} PackAppend(a: seq<string>, last: string)
    ensures Pack(a + [last]) == Pack(a) + PackString(last)
  {
    if a == [] {
      assert Pack([last]) == PackString(last) + Pack([]);
      assert [last][1..] == [];
    } else {
      assert (a + [last])[1..] == a[1..] + [last];
      PackAppend(a[1..], last);
      Associate(PackString(a[0]), Pack(a[1..]), PackString(last));
    }
  }

  /** Keys that differ in their last part only are ordered by it. */
  lemma OrderOfKeys(leading: seq<string>, s: string, t: string)
    requires '\0' !in s && '\0' !in t
    ensures StrLess(Pack(leading + [s]), Pack(leading + [t])) <==> StrLess(s, t)
  {
    PackAppend(leading, s);
    PackAppend(leading, t);
    StrLessPrefix(Pack(leading), PackString(s), PackString(t));
    EscapeIdle(s);
    EscapeIdle(t);
    Associate([STRING_TYPE], s, "\0");
    Associate([STRING_TYPE], t, "\0");
    StrLessPrefix([STRING_TYPE], s + "\0", t + "\0");
    OrderOfTerminated(s, t);
  }

  lemma {:induction false} PaddedHasNoNul(n: nat, width: nat)
    ensures '\0' !in Pad(n, width)
  {
    if width == 0 {
    } else {
      PaddedHasNoNul(n / 10, width - 1);
    }
  }

  lemma {:induction false} LayoutHasNoNul(parts: seq<nat>, widths: seq<nat>, separators: seq<string>)
    requires |parts| == |widths| == |separators| && forall s :: s in separators ==> '\0' !in s
    ensures '\0' !in Layout(parts, widths, separators)
  {
    if parts == [] {
    } else {
      PaddedHasNoNul(parts[0], widths[0]);
      assert separators[0] in separators;
      LayoutHasNoNul(parts[1..], widths[1..], separators[1..]);
    }
  }

  lemma IsoHasNoNul(t: Instant)
    ensures '\0' !in Iso(t)
  {
    LayoutHasNoNul(Parts(t), WIDTHS, SEPARATORS);
    PaddedHasNoNul(t.micro, 6);
  }
}
