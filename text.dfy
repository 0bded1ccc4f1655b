/** Text produced by the emitters: the append-only buffer they write into,
    newline-terminated lines and their reading back, comma-joined lists and
    their splitting, decimal numerals, and bracket balance. */
module Text {

  /** The `fmt::Write` sink. Writing never fails in this model. */
  class Writer {
    var text: string

    constructor ()
      ensures text == ""
    {
      text := "";
    }

    method Write(s: string)
      modifies this
      ensures text == old(text) + s
    {
      text := text + s;
    }

    /** `writeln!`: the text and one newline. */
    method WriteLine(s: string)
      modifies this
      ensures text == old(text) + s + "\n"
    {
      text := text + s + "\n";
    }

    /** A run of `writeln!` calls, one per line. */
    method WriteLines(ls: seq<string>)
      modifies this
      ensures text == old(text) + Unlines(ls)
    {
      for i := 0 to |ls|
        invariant text == old(text) + Unlines(ls[..i])
      {
        assert ls[..i + 1] == ls[..i] + [ls[i]];
        UnlinesSnoc(ls[..i], ls[i]);
        WriteLine(ls[i]);
      }
      assert ls[..|ls|] == ls;
    }
  }

  lemma ConcatAssoc<T>(a: seq<T>, b: seq<T>, c: seq<T>)
    ensures a + (b + c) == a + b + c
  {
  }

  /** A suffix of a non-empty sequence is the same suffix of its front, then the last element. */
  lemma DropSnoc<T>(s: seq<T>, k: nat)
    requires k < |s|
    ensures s[k..] == s[..|s| - 1][k..] + [s[|s| - 1]]
  {
    assert forall i :: 0 <= i < |s| - k ==> s[k..][i] == s[k + i];
  }

  /** Position of the first `c` in `s`, or `|s|` when there is none. */
  function IndexOf(s: string, c: char): (i: nat)
    ensures i <= |s|
    ensures i < |s| ==> s[i] == c
    ensures forall j :: 0 <= j < i ==> s[j] != c
  {
    if s == [] then 0
    else if s[0] == c then 0
    else 1 + IndexOf(s[1..], c)
  }

  /** `c` does not occur anywhere in `s`. */
  predicate Free(s: string, c: char) {
    c !in s
  }

  /** No element of `ls` contains `c`. */
  predicate AllFree(ls: seq<string>, c: char) {
    forall i :: 0 <= i < |ls| ==> Free(ls[i], c)
  }

  lemma AllFreeAppend(a: seq<string>, b: seq<string>, c: char)
    requires AllFree(a, c) && AllFree(b, c)
    ensures AllFree(a + b, c)
  {
    assert forall i :: |a| <= i < |a + b| ==> (a + b)[i] == b[i - |a|];
  }

  /** The text a run of `writeln!` calls produces: every line followed by a newline. */
  function Unlines(ls: seq<string>): string {
    if ls == [] then "" else ls[0] + "\n" + Unlines(ls[1..])
  }

  /** Reads a text back as its lines; a last line without newline is kept. */
  function Lines(s: string): seq<string>
    decreases |s|
  {
    if s == "" then []
    else
      var i := IndexOf(s, '\n');
      if i == |s| then [s] else [s[..i]] + Lines(s[i + 1..])
  }

  lemma IndexOfFree(a: string, c: char, b: string)
    requires Free(a, c)
    ensures IndexOf(a + [c] + b, c) == |a|
  {
    var s := a + [c] + b;
    assert forall j :: 0 <= j < |a| ==> s[j] == a[j];
    assert s[|a|] == c;
  }

  lemma {:induction false} UnlinesAppend(a: seq<string>, b: seq<string>)
    ensures Unlines(a + b) == Unlines(a) + Unlines(b)
  {
    if a != [] {
      assert (a + b)[1..] == a[1..] + b;
      UnlinesAppend(a[1..], b);
    } else {
      assert a + b == b;
    }
  }

  lemma UnlinesSnoc(a: seq<string>, x: string)
    ensures Unlines(a + [x]) == Unlines(a) + x + "\n"
  {
    UnlinesAppend(a, [x]);
    assert Unlines([x]) == x + "\n" + Unlines([]);
  }

  lemma LinesCons(a: string, b: string)
    requires Free(a, '\n')
    ensures Lines(a + "\n" + b) == [a] + Lines(b)
  {
    var s := a + "\n" + b;
    IndexOfFree(a, '\n', b);
    assert s[..|a|] == a;
    assert s[|a| + 1..] == b;
  }

  /** Reading the emitted lines back gives exactly the lines written, as long
      as no line holds a newline of its own. */
  lemma {:induction false} LinesUnlines(ls: seq<string>)
    requires AllFree(ls, '\n')
    ensures Lines(Unlines(ls)) == ls
  {
    if ls != [] {
      assert Free(ls[0], '\n');
      LinesCons(ls[0], Unlines(ls[1..]));
      LinesUnlines(ls[1..]);
      assert ls == [ls[0]] + ls[1..];
    }
  }

  /** `Itertools::join`: the elements with `sep` between consecutive ones. */
  function Join(xs: seq<string>, sep: char): string {
    if xs == [] then ""
    else if |xs| == 1 then xs[0]
    else xs[0] + [sep] + Join(xs[1..], sep)
  }

  /** Cuts `s` at every `sep`. */
  function Split(s: string, sep: char): (r: seq<string>)
    ensures |r| > 0
    decreases |s|
  {
    var i := IndexOf(s, sep);
    if i == |s| then [s] else [s[..i]] + Split(s[i + 1..], sep)
  }

  /** Splitting a joined list gives the list back when no element holds the
      separator; an empty list joins to "" and would split into [""]. */
  lemma {:induction false} SplitJoin(xs: seq<string>, sep: char)
    requires |xs| > 0
    requires AllFree(xs, sep)
    ensures Split(Join(xs, sep), sep) == xs
  {
    assert Free(xs[0], sep);
    if |xs| == 1 {
      assert IndexOf(xs[0], sep) == |xs[0]|;
    } else {
      SplitCons(xs[0], sep, Join(xs[1..], sep));
      SplitJoin(xs[1..], sep);
      assert xs == [xs[0]] + xs[1..];
    }
  }

  lemma SplitCons(a: string, sep: char, b: string)
    requires Free(a, sep)
    ensures Split(a + [sep] + b, sep) == [a] + Split(b, sep)
  {
    var s := a + [sep] + b;
    IndexOfFree(a, sep, b);
    assert s[..|a|] == a;
    assert s[|a| + 1..] == b;
  }

  function Digit(d: nat): char
    requires d < 10
  {
    "0123456789"[d]
  }

  function DigitValue(c: char): nat {
    if '0' <= c <= '9' then (c as int - '0' as int) as nat else 0
  }

  predicate IsDigits(s: string) {
    |s| > 0 && forall i :: 0 <= i < |s| ==> '0' <= s[i] <= '9'
  }

  /** The decimal rendering `{}` gives an unsigned integer. */
  function NatToString(n: nat): string
    decreases n
  {
    if n < 10 then [Digit(n)] else NatToString(n / 10) + [Digit(n % 10)]
  }

  /** Reads a string of decimal digits as a number. */
  function ParseNat(s: string): nat
    decreases |s|
  {
    if s == [] then 0 else ParseNat(s[..|s| - 1]) * 10 + DigitValue(s[|s| - 1])
  }

  lemma DigitRoundTrip(d: nat)
    requires d < 10
    ensures '0' <= Digit(d) <= '9' && DigitValue(Digit(d)) == d
  {
    assert "0123456789"[0] == '0' && "0123456789"[1] == '1' && "0123456789"[2] == '2';
    assert "0123456789"[3] == '3' && "0123456789"[4] == '4' && "0123456789"[5] == '5';
    assert "0123456789"[6] == '6' && "0123456789"[7] == '7' && "0123456789"[8] == '8';
    assert "0123456789"[9] == '9';
  }

  /** The decimal rendering is all digits, has no leading zero, and reads back as the number. */
  lemma {:induction false} NatToStringRoundTrip(n: nat)
    ensures IsDigits(NatToString(n))
    ensures NatToString(n)[0] == '0' ==> n == 0
    ensures ParseNat(NatToString(n)) == n
    decreases n
  {
    if n < 10 {
      DigitRoundTrip(n);
      assert [Digit(n)][..0] == [];
    } else {
      var prefix := NatToString(n / 10);
      NatToStringRoundTrip(n / 10);
      DigitRoundTrip(n % 10);
      var s := prefix + [Digit(n % 10)];
      assert s[..|s| - 1] == prefix;
      assert s[0] == prefix[0];
    }
  }

  /** How often `c` occurs in `s`. */
  function Count(s: string, c: char): nat {
    if s == [] then 0 else Count(s[..|s| - 1], c) + (if s[|s| - 1] == c then 1 else 0)
  }

  lemma {:induction false} CountAppend(a: string, b: string, c: char)
    ensures Count(a + b, c) == Count(a, c) + Count(b, c)
  {
    if b != [] {
      assert (a + b)[..|a + b| - 1] == a + b[..|b| - 1];
      CountAppend(a, b[..|b| - 1], c);
    } else {
      assert a + b == a;
    }
  }

  /** A character that does not occur is counted zero times, and conversely. */
  lemma {:induction false} CountFree(s: string, c: char)
    ensures Count(s, c) == 0 <==> Free(s, c)
  {
    if s != [] {
      assert s == s[..|s| - 1] + [s[|s| - 1]];
      CountFree(s[..|s| - 1], c);
    }
  }

  /** How many more `open` than `close` characters `s` holds. */
  function Balance(s: string, open: char, close: char): int {
    Count(s, open) as int - Count(s, close) as int
  }

  /** Balance adds up over concatenation. */
  lemma BalanceAppend(a: string, b: string, open: char, close: char)
    ensures Balance(a + b, open, close) == Balance(a, open, close) + Balance(b, open, close)
  {
    CountAppend(a, b, open);
    CountAppend(a, b, close);
  }

  /** A text with neither bracket is balanced. */
  lemma BalanceFree(s: string, open: char, close: char)
    requires Free(s, open) && Free(s, close)
    ensures Balance(s, open, close) == 0
  {
    CountFree(s, open);
    CountFree(s, close);
  }

  /** The balances of the lines, added up. */
  function LinesBalance(ls: seq<string>, open: char, close: char): int {
    if ls == [] then 0 else Balance(ls[0], open, close) + LinesBalance(ls[1..], open, close)
  }

  /** Newlines between lines change no balance of other characters. */
  lemma {:induction false} BalanceUnlines(ls: seq<string>, open: char, close: char)
    requires open != '\n' && close != '\n'
    ensures Balance(Unlines(ls), open, close) == LinesBalance(ls, open, close)
  {
    if ls != [] {
      BalanceUnlines(ls[1..], open, close);
      BalanceFree("\n", open, close);
      BalanceAppend(ls[0], "\n", open, close);
      BalanceAppend(ls[0] + "\n", Unlines(ls[1..]), open, close);
    }
  }

  lemma BalanceOfNine(a: string, b: string, c: string, d: string, e: string, f: string, g: string, h: string, i: string,
                      open: char, close: char)
    ensures Balance(a + b + c + d + e + f + g + h + i, open, close) ==
      Balance(a, open, close) + Balance(b, open, close) + Balance(c, open, close) + Balance(d, open, close)
      + Balance(e, open, close) + Balance(f, open, close) + Balance(g, open, close) + Balance(h, open, close)
      + Balance(i, open, close)
  {
    BalanceAppend(a, b, open, close);
    BalanceAppend(a + b, c, open, close);
    BalanceAppend(a + b + c, d, open, close);
    BalanceAppend(a + b + c + d, e, open, close);
    BalanceAppend(a + b + c + d + e, f, open, close);
    BalanceAppend(a + b + c + d + e + f, g, open, close);
    BalanceAppend(a + b + c + d + e + f + g, h, open, close);
    BalanceAppend(a + b + c + d + e + f + g + h, i, open, close);
  }

  /** Inserting `x` after the second of five pieces adds the balance of `x`. */
  lemma BalanceOfInserted(a: string, b: string, x: string, c: string, d: string, e: string, open: char, close: char)
    ensures Balance(a + (b + x) + c + d + e, open, close) == Balance(a + b + c + d + e, open, close) + Balance(x, open, close)
  {
    BalanceAppend(b, x, open, close);
    BalanceAppend(a, b + x, open, close);
    BalanceAppend(a + (b + x), c, open, close);
    BalanceAppend(a + (b + x) + c, d, open, close);
    BalanceAppend(a + (b + x) + c + d, e, open, close);
    BalanceAppend(a, b, open, close);
    BalanceAppend(a + b, c, open, close);
    BalanceAppend(a + b + c, d, open, close);
    BalanceAppend(a + b + c + d, e, open, close);
  }
}
