/** handle_input of main.py: turning the raw text a player types into a
    free cell number, re-prompting until one is given. */
module Input {
  import opened Util

  // ---------------------------------------------------------------------
  // Python's int() on a string, reduced to: surrounding ASCII whitespace,
  // an optional sign, then one or more ASCII decimal digits.
  // ---------------------------------------------------------------------

  /** The ASCII characters int() skips around a number: tab, line feed,
      vertical tab, form feed, carriage return and space. */
  predicate IsSpace(c: char) {
    c == ' ' || ('\t' <= c <= '\r')
  }

  /** Nothing but that whitespace. */
  predicate AllSpace(s: string) {
    forall i :: 0 <= i < |s| ==> IsSpace(s[i])
  }

  predicate IsDigit(c: char) {
    '0' <= c <= '9'
  }

  predicate AllDigits(s: string) {
    forall i :: 0 <= i < |s| ==> IsDigit(s[i])
  }

  /** Leading whitespace removed. */
  function TrimStart(s: string): string
    decreases |s|
  {
    if |s| > 0 && IsSpace(s[0]) then TrimStart(s[1..]) else s
  }

  /** Trailing whitespace removed. */
  function TrimEnd(s: string): string
    decreases |s|
  {
    if |s| > 0 && IsSpace(s[|s| - 1]) then TrimEnd(s[..|s| - 1]) else s
  }

  /** The value of a string of decimal digits, most significant first. */
  function DigitsValue(ds: string): nat
    requires AllDigits(ds)
    decreases |ds|
  {
    if |ds| == 0 then 0
    else DigitsValue(ds[..|ds| - 1]) * 10 + (ds[|ds| - 1] as int - '0' as int)
  }

  /** A non-empty run of decimal digits and its value, or None. */
  function ParseDigits(ds: string): (r: Option<nat>)
    ensures r.Some? <==> |ds| > 0 && AllDigits(ds)
    ensures r.Some? ==> r.value == DigitsValue(ds)
    decreases |ds|
  {
    if |ds| == 0 || !IsDigit(ds[|ds| - 1]) then None
    else if |ds| == 1 then Some(ds[0] as int - '0' as int)
    else match ParseDigits(ds[..|ds| - 1])
      case None => None
      case Some(v) => Some(v * 10 + (ds[|ds| - 1] as int - '0' as int))
  }

  /** An optional sign followed by digits. */
  function ParseSigned(t: string): Option<int> {
    if |t| > 0 && t[0] == '-' then
      match ParseDigits(t[1..]) case None => None case Some(v) => Some(0 - v)
    else if |t| > 0 && t[0] == '+' then ParseDigits(t[1..])
    else ParseDigits(t)
  }

  /** `int(raw)`, or None where Python raises ValueError. */
  function ParseInt(raw: string): Option<int> {
    ParseSigned(TrimEnd(TrimStart(raw)))
  }

  function DigitChar(d: nat): char
    requires d < 10
  {
    ('0' as int + d) as char
  }

  /** The decimal digits of `n`, without leading zeros. */
  function ShowNat(n: nat): string
    decreases n
  {
    if n < 10 then [DigitChar(n)] else ShowNat(n / 10) + [DigitChar(n % 10)]
  }

  /** `str(n)` */
  function Show(n: int): string {
    if n < 0 then "-" + ShowNat(-n) else ShowNat(n)
  }

  lemma {:induction false} ShowNatDigits(n: nat)
    ensures |ShowNat(n)| > 0 && AllDigits(ShowNat(n))
    ensures DigitsValue(ShowNat(n)) == n
    decreases n
  {
    if n >= 10 {
      ShowNatDigits(n / 10);
      var s := ShowNat(n);
      assert s[..|s| - 1] == ShowNat(n / 10);
    }
  }

  /** A number typed as Python prints it is read back as that number:
      int(str(n)) == n. */
  lemma ParseShow(n: int)
    ensures ParseInt(Show(n)) == Some(n)
  {
    var m: nat := if n < 0 then -n else n;
    ShowNatDigits(m);
    var s := Show(n);
    assert !IsSpace(s[0]) && !IsSpace(s[|s| - 1]);
    assert TrimStart(s) == s;
    assert TrimEnd(s) == s;
    if n < 0 {
      assert s[1..] == ShowNat(m);
    }
  }

  /** Whitespace around the number does not change what int() reads. */
  lemma ParseIgnoresSurroundingSpace(before: string, raw: string, after: string)
    requires AllSpace(before) && AllSpace(after)
    ensures ParseInt(before + raw + after) == ParseInt(raw)
  {
    assert before + raw + after == before + (raw + after);
    TrimStartSkipsSpace(before, raw + after);
    TrimAppendedSpace(raw, after);
  }

  /** A run of digits, leading zeros included, is read as its decimal
      value: int("05") == 5. */
  lemma ParseUnsignedDigits(ds: string)
    requires |ds| > 0 && AllDigits(ds)
    ensures ParseInt(ds) == Some(DigitsValue(ds))
  {
    UntrimmedEnds(ds);
  }

  /** A sign followed by digits is read as the signed value of the digits:
      int("+05") == 5 and int("-05") == -5. */
  lemma ParseSignedDigits(t: string)
    requires |t| > 1 && AllDigits(t[1..])
    ensures t[0] == '+' ==> ParseInt(t) == Some(DigitsValue(t[1..]))
    ensures t[0] == '-' ==> ParseInt(t) == Some(0 - DigitsValue(t[1..]))
  {
    assert t[|t| - 1] == t[1..][|t| - 2];
    if t[0] == '+' || t[0] == '-' {
      UntrimmedEnds(t);
    }
  }

  /** Text with no whitespace at either end is left as it is by trimming. */
  lemma UntrimmedEnds(s: string)
    requires |s| > 0 && !IsSpace(s[0]) && !IsSpace(s[|s| - 1])
    ensures TrimEnd(TrimStart(s)) == s
  {
    assert TrimStart(s) == s;
  }

  /** The ASCII separators 0x1C..0x1F are not whitespace to int(): text
      that starts with one is not a number, whatever follows. */
  lemma SeparatorIsNotSpace(c: char, raw: string)
    requires 28 <= c as int <= 31
    ensures ParseInt([c] + raw) == None
  {
    var s := [c] + raw;
    assert s[0] == c;
    assert TrimStart(s) == s;
    TrimEndKeepsFirst(s);
  }

  /** Trimming the end never removes a first character that is not whitespace. */
  lemma {:induction false} TrimEndKeepsFirst(s: string)
    requires |s| > 0 && !IsSpace(s[0])
    ensures |TrimEnd(s)| > 0 && TrimEnd(s)[0] == s[0]
    decreases |s|
  {
    if IsSpace(s[|s| - 1]) {
      var p := s[..|s| - 1];
      assert |p| > 0 && p[0] == s[0];
      TrimEndKeepsFirst(p);
    }
  }

  /** Leading whitespace is skipped. */
  lemma {:induction false} TrimStartSkipsSpace(w: string, s: string)
    requires AllSpace(w)
    ensures TrimStart(w + s) == TrimStart(s)
    decreases |w|
  {
    if |w| > 0 {
      assert (w + s)[0] == w[0];
      assert (w + s)[1..] == w[1..] + s;
      TrimStartSkipsSpace(w[1..], s);
    } else {
      assert w + s == s;
    }
  }

  /** Trailing whitespace is dropped. */
  lemma {:induction false} TrimEndSkipsSpace(s: string, w: string)
    requires AllSpace(w)
    ensures TrimEnd(s + w) == TrimEnd(s)
    decreases |w|
  {
    if |w| > 0 {
      var u := s + w;
      assert u[..|u| - 1] == s + w[..|w| - 1];
      TrimEndSkipsSpace(s, w[..|w| - 1]);
    } else {
      assert s + w == s;
    }
  }

  /** Whitespace after the text makes no difference once both ends are trimmed. */
  lemma {:induction false} TrimAppendedSpace(s: string, w: string)
    requires AllSpace(w)
    ensures TrimEnd(TrimStart(s + w)) == TrimEnd(TrimStart(s))
    decreases |s|
  {
    if |s| == 0 {
      assert s + w == w + "";
      TrimStartSkipsSpace(w, "");
      assert TrimStart(s + w) == "" == TrimStart(s);
    } else if IsSpace(s[0]) {
      assert (s + w)[1..] == s[1..] + w;
      TrimAppendedSpace(s[1..], w);
    } else {
      TrimEndSkipsSpace(s, w);
    }
  }

  // ---------------------------------------------------------------------
  // Classifying one input, and the retry loop.
  // ---------------------------------------------------------------------

  /** What handle_input makes of one raw input, in the order it checks:
      not an integer, outside 1..9, already filled, or accepted. */
  datatype Verdict = NotANumber | OutOfRange | CellTaken | Accepted(cell: int)

  /** One pass of handle_input's loop body. */
  function Classify(raw: string, cellsTaken: seq<int>): (v: Verdict)
    ensures v == NotANumber <==> ParseInt(raw).None?
    ensures v == OutOfRange <==> ParseInt(raw).Some? && (ParseInt(raw).value < 1 || ParseInt(raw).value > 9)
    ensures v == CellTaken <==> ParseInt(raw).Some? && 1 <= ParseInt(raw).value <= 9 && ParseInt(raw).value in cellsTaken
    ensures v.Accepted? <==> ParseInt(raw).Some? && 1 <= ParseInt(raw).value <= 9 && ParseInt(raw).value !in cellsTaken
    ensures v.Accepted? ==> v.cell == ParseInt(raw).value
  {
    match ParseInt(raw)
    case None => NotANumber
    case Some(n) =>
      if n < 1 || n > 9 then OutOfRange
      else if n in cellsTaken then CellTaken
      else Accepted(n)
  }

  /** The outcome of the retry loop over a stream of inputs: the cell chosen
      and the index of the input that chose it, or the stream ran dry. */
  datatype Reply = Chosen(cell: int, read: nat) | EndOfInput

  /** The first input of `inputs` that is accepted decides the move. */
  function Validate(inputs: seq<string>, cellsTaken: seq<int>): (r: Reply)
    ensures r.Chosen? ==> r.read < |inputs| && Classify(inputs[r.read], cellsTaken) == Accepted(r.cell)
    ensures r.Chosen? ==> 1 <= r.cell <= 9 && r.cell !in cellsTaken
    ensures r.Chosen? ==> forall j :: 0 <= j < r.read ==> !Classify(inputs[j], cellsTaken).Accepted?
    ensures r.EndOfInput? <==> forall j :: 0 <= j < |inputs| ==> !Classify(inputs[j], cellsTaken).Accepted?
    decreases |inputs|
  {
    if |inputs| == 0 then EndOfInput
    else if Classify(inputs[0], cellsTaken).Accepted? then Chosen(Classify(inputs[0], cellsTaken).cell, 0)
    else match Validate(inputs[1..], cellsTaken)
      case Chosen(c, n) => Chosen(c, n + 1)
      case EndOfInput => EndOfInput
  }

  /** handle_input: `userInput` is the line already read; each rejection
      reads the next line of `stdin`. In `Chosen(cell, read)`, `read` is how
      many further lines were consumed; EndOfInput means stdin ran out,
      where Python's input() would raise EOFError. */
  method HandleInput(userInput: string, cellsTaken: seq<int>, stdin: seq<string>) returns (r: Reply)
    ensures r == Validate([userInput] + stdin, cellsTaken)
    ensures r.Chosen? ==> 1 <= r.cell <= 9 && r.cell !in cellsTaken && r.read <= |stdin|
    ensures Classify(userInput, cellsTaken).Accepted? ==> r == Chosen(Classify(userInput, cellsTaken).cell, 0)
  {
    ghost var all := [userInput] + stdin;
    var line := userInput;
    var read := 0;
    while true
      invariant 0 <= read <= |stdin| && line == all[read]
      invariant forall j :: 0 <= j < read ==> !Classify(all[j], cellsTaken).Accepted?
      decreases |stdin| - read
    {
      var verdict := Classify(line, cellsTaken);
      if verdict.Accepted? {
        ValidateFirst(all, cellsTaken, read);
        return Chosen(verdict.cell, read);
      }
      if read == |stdin| {
        assert forall j :: 0 <= j < |all| ==> !Classify(all[j], cellsTaken).Accepted?;
        return EndOfInput;
      }
      line := stdin[read];
      read := read + 1;
    }
  }

  /** The reply is determined by the first accepted input. */
  lemma ValidateFirst(inputs: seq<string>, cellsTaken: seq<int>, n: nat)
    requires n < |inputs| && Classify(inputs[n], cellsTaken).Accepted?
    requires forall j :: 0 <= j < n ==> !Classify(inputs[j], cellsTaken).Accepted?
    ensures Validate(inputs, cellsTaken) == Chosen(Classify(inputs[n], cellsTaken).cell, n)
  {
  }

  /** Example: "abc", then "10", then "5" on an empty grid: two rejections,
      then cell 5, read from the second re-prompt. */
  lemma RejectThenAccept()
    ensures Classify("abc", []) == NotANumber
    ensures Classify("10", []) == OutOfRange
    ensures Classify("5", []) == Accepted(5)
    ensures Validate(["abc", "10", "5"], []) == Chosen(5, 2)
  {
  }
}
