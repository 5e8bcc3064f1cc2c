/** The error-code table of the C API and the text `pixy_error` prints for a
    code. */
module ErrorText {
  import opened Common

  datatype Entry = Entry(code: int, text: string)

  /** The table in declaration order, without its terminating entry. */
  const Table: seq<Entry> := [
    Entry(0, "Success"),
    Entry(ErrorUsbIo, "USB Error: I/O"),
    Entry(ErrorUsbBusy, "USB Error: Busy"),
    Entry(ErrorUsbNoDevice, "USB Error: No device"),
    Entry(ErrorUsbNotFound, "USB Error: Target not found"),
    Entry(ErrorChirp, "Chirp Protocol Error"),
    Entry(ErrorInvalidCommand, "Pixy Error: Invalid command")
  ]

  predicate IsDigit(c: char)
  {
    '0' <= c <= '9'
  }

  predicate AllDigits(s: string)
  {
    forall i :: 0 <= i < |s| ==> IsDigit(s[i])
  }

  /** The number a string of decimal digits spells. */
  function DigitsValue(s: string): nat
    requires AllDigits(s)
  {
    if s == [] then 0
    else
      assert IsDigit(s[|s| - 1]);
      DigitsValue(s[..|s| - 1]) * 10 + (s[|s| - 1] as int - '0' as int)
  }

  /** The decimal digits of a natural number, without leading zeros. */
  function NatString(n: nat): (s: string)
    ensures |s| > 0 && AllDigits(s)
    ensures DigitsValue(s) == n
    ensures |s| > 1 ==> s[0] != '0'
  {
    var last := [('0' as int + n % 10) as char];
    if n < 10 then last
    else
      var front := NatString(n / 10);
      assert (front + last)[..|front + last| - 1] == front;
      front + last
  }

  /** A signed decimal, as `%d` prints it. */
  function DecimalString(n: int): (s: string)
    ensures n < 0 ==> |s| > 1 && s[0] == '-' && AllDigits(s[1..]) && DigitsValue(s[1..]) == -n
    ensures n < 0 && |s| > 2 ==> s[1] != '0'
    ensures n >= 0 ==> |s| > 0 && AllDigits(s) && DigitsValue(s) == n
    ensures n >= 0 && |s| > 1 ==> s[0] != '0'
  {
    if n < 0 then
      var digits := NatString(-n);
      assert ("-" + digits)[1..] == digits;
      "-" + digits
    else NatString(n)
  }

  /** The table is scanned from index `from` on: the text of the first entry
      with the code, or None when no later entry has it. */
  function FindFrom(code: int, from: nat): (r: Option<string>)
    requires from <= |Table|
    ensures r.None? <==> forall i :: from <= i < |Table| ==> Table[i].code != code
    ensures r.Some? ==> exists i :: from <= i < |Table| && Table[i].code == code && r.value == Table[i].text
                                    && forall j :: from <= j < i ==> Table[j].code != code
    decreases |Table| - from
  {
    if from == |Table| then None
    else if Table[from].code == code then Some(Table[from].text)
    else FindFrom(code, from + 1)
  }

  /** The line printed for a code: the first matching entry's text, or
      "Undefined error: [code]", followed by a newline. */
  function PixyError(code: int): (line: string)
    ensures (exists i :: 0 <= i < |Table| && Table[i].code == code) ==>
              exists i :: 0 <= i < |Table| && Table[i].code == code && line == Table[i].text + "\n"
                          && forall j :: 0 <= j < i ==> Table[j].code != code
    ensures (forall i :: 0 <= i < |Table| ==> Table[i].code != code) ==>
              line == "Undefined error: [" + DecimalString(code) + "]\n"
  {
    match FindFrom(code, 0)
    case Some(t) => t + "\n"
    case None => "Undefined error: [" + DecimalString(code) + "]\n"
  }

  /** Known codes get their text. */
  lemma KnownCodes()
    ensures PixyError(0) == "Success\n"
    ensures PixyError(ErrorInvalidCommand) == "Pixy Error: Invalid command\n"
  {
    assert Table[0].code == 0;
    assert Table[6].code == ErrorInvalidCommand;
  }

  /** The invalid-parameter code and the two interpreter codes are not in the
      table, so they print as undefined. */
  lemma UndefinedCodes(code: int)
    requires code == ErrorInvalidParameter || code == ErrorNotRunning || code == ErrorFramePending
    ensures PixyError(code) == "Undefined error: [" + DecimalString(code) + "]\n"
  {
    assert forall i :: 0 <= i < |Table| ==> Table[i].code != code;
  }
}
