/** The transaction event and the flat fields that carry it on the stream. */
module Events {
  import opened Errors
  import opened Converter

  /** `timestamp` and `receivedAt` are instants; time zones are resolved before this point. */
  datatype TransactionEvent = TransactionEvent(
    id: string, userId: string, amount: Decimal, currency: string, timestamp: int, receivedAt: int)

  /** The fields of one stream entry. */
  type Fields = map<string, string>

  datatype StreamEnvelope = StreamEnvelope(schemaVersion: int, payload: string)

  /** How an entry fails to be read. */
  datatype ParseError = KeyError(key: string) | ValueError(text: string)

  /** `str(exc)`. */
  function Text(e: ParseError): string {
    match e
    case KeyError(key) => "'" + key + "'"
    case ValueError(text) => text
  }

  datatype Parsed<+T> = Valid(value: T) | Invalid(error: ParseError)

  // ----- integers as text -----

  function DigitChar(d: nat): char
    requires d < 10
  {
    '0' + d as char
  }

  predicate IsDigit(c: char) {
    '0' <= c <= '9'
  }

  function PrintNat(n: nat): string {
    if n < 10 then [DigitChar(n)] else PrintNat(n / 10) + [DigitChar(n % 10)]
  }

  /** `str(n)`. */
  function PrintInt(n: int): string {
    if n < 0 then "-" + PrintNat(-n) else PrintNat(n)
  }

  /** Decimal digits, where single underscores may separate digits. */
  function ParseNat(s: string): Option<nat> {
    if s == "" || !IsDigit(s[|s| - 1]) then None
    else
      var d := (s[|s| - 1] - '0') as nat;
      var rest := s[..|s| - 1];
      if rest == "" then Some(d)
      else
        var high := ParseNat(if rest[|rest| - 1] == '_' then rest[..|rest| - 1] else rest);
        if high.None? then None else Some(10 * high.value + d)
  }

  predicate IsSpace(c: char) {
    c == ' ' || '\t' <= c <= '\r'
  }

  function Strip(s: string): string {
    if s != "" && IsSpace(s[0]) then Strip(s[1..])
    else if s != "" && IsSpace(s[|s| - 1]) then Strip(s[..|s| - 1])
    else s
  }

  /** `int(s)`; None is ValueError. */
  function ParseInt(s: string): Option<int> {
    var t := Strip(s);
    if t == "" then None
    else if t[0] == '-' then
      var n := ParseNat(t[1..]);
      if n.None? then None else Some(-(n.value as int))
    else ParseNat(if t[0] == '+' then t[1..] else t)
  }

  lemma {:induction false} PrintedDigits(n: nat)
    ensures PrintNat(n) != "" && forall c <- PrintNat(n) :: IsDigit(c)
    ensures ParseNat(PrintNat(n)) == Some(n)
  {
    if n >= 10 {
      PrintedDigits(n / 10);
      var s := PrintNat(n);
      assert s[..|s| - 1] == PrintNat(n / 10);
      assert IsDigit(PrintNat(n / 10)[|PrintNat(n / 10)| - 1]);
    }
  }

  lemma PrintParse(n: int)
    ensures ParseInt(PrintInt(n)) == Some(n)
  {
    var m := Abs(n);
    PrintedDigits(m);
    var s := PrintInt(n);
    assert IsDigit(PrintNat(m)[0]) && IsDigit(PrintNat(m)[|PrintNat(m)| - 1]);
    assert Strip(s) == s;
    if n < 0 { assert s[1..] == PrintNat(m); }
  }

  /** No other form is printed: a minus sign exactly for a negative number, no plus sign, no
      leading zero, no underscore. */
  lemma PrintsCanonically(n: int)
    ensures var s, m := PrintInt(n), PrintNat(Abs(n));
      && s == (if n < 0 then "-" else "") + m
      && m != "" && (forall c <- m :: IsDigit(c)) && (m[0] == '0' ==> n == 0)
  {
    PrintedDigits(Abs(n));
    NoLeadingZero(Abs(n));
    if n >= 0 { assert PrintInt(n) == "" + PrintNat(n); }
  }

  lemma {:induction false} NoLeadingZero(n: nat)
    ensures PrintNat(n) != "" && (PrintNat(n)[0] == '0' ==> n == 0)
  {
    if n >= 10 { NoLeadingZero(n / 10); }
  }

  // ----- which texts are integers -----

  /** Digits, with single underscores between some of them. */
  predicate IsDigits(s: string) {
    && s != "" && IsDigit(s[0]) && IsDigit(s[|s| - 1])
    && (forall i | 0 <= i < |s| :: IsDigit(s[i]) || s[i] == '_')
    && (forall i | 0 < i < |s| :: IsDigit(s[i]) || IsDigit(s[i - 1]))
  }

  /** What the digits stand for; everything else is skipped. */
  function DecimalValue(s: string): nat {
    if s == "" then 0
    else
      var high := DecimalValue(s[..|s| - 1]);
      if IsDigit(s[|s| - 1]) then 10 * high + (s[|s| - 1] - '0') as nat else high
  }

  lemma {:induction false} ParseNatIs(s: string)
    ensures ParseNat(s) == if IsDigits(s) then Some(DecimalValue(s)) else None
    decreases |s|
  {
    if s != "" && IsDigit(s[|s| - 1]) {
      var rest := s[..|s| - 1];
      if rest != "" {
        var high := if rest[|rest| - 1] == '_' then rest[..|rest| - 1] else rest;
        ParseNatIs(high);
        DigitsBefore(s, rest, high);
      } else {
        assert DecimalValue(rest) == 0;
      }
    }
  }

  /** One digit less, and the underscore before it if there is one. */
  lemma DigitsBefore(s: string, rest: string, high: string)
    requires |s| >= 2 && IsDigit(s[|s| - 1]) && rest == s[..|s| - 1]
    requires high == if rest[|rest| - 1] == '_' then rest[..|rest| - 1] else rest
    ensures IsDigits(s) <==> IsDigits(high)
    ensures DecimalValue(rest) == DecimalValue(high)
  {
    forall i | 0 <= i < |high| ensures high[i] == s[i] {}
    if IsDigits(high) && |high| < |rest| {
      assert s[|s| - 2] == '_' && IsDigit(s[|s| - 3]) && |high| == |s| - 2;
    }
    if IsDigits(s) {
      assert high == "" || IsDigit(high[|high| - 1]) by {
        assert IsDigit(s[|s| - 2]) || IsDigit(s[|s| - 3]);
      }
    }
  }

  predicate AllSpace(s: string) {
    forall i | 0 <= i < |s| :: IsSpace(s[i])
  }

  /** The text is white space, at most one sign, digits, and white space, and stands for n. */
  predicate Spells(s: string, n: int, lead: string, sign: string, digits: string, trail: string) {
    && s == lead + (sign + digits) + trail && AllSpace(lead) && AllSpace(trail)
    && IsDigits(digits) && (sign == "" || sign == "+" || sign == "-")
    && n == if sign == "-" then -(DecimalValue(digits) as int) else DecimalValue(digits)
  }

  ghost predicate IsIntText(s: string, n: int) {
    exists lead, sign, digits, trail :: Spells(s, n, lead, sign, digits, trail)
  }

  lemma {:induction false} StripsAround(lead: string, core: string, trail: string)
    requires AllSpace(lead) && AllSpace(trail)
    requires core != "" && !IsSpace(core[0]) && !IsSpace(core[|core| - 1])
    ensures Strip(lead + core + trail) == core
    decreases |lead| + |trail|
  {
    var s := lead + core + trail;
    if lead != "" {
      assert s[0] == lead[0] && s[1..] == lead[1..] + core + trail;
      StripsAround(lead[1..], core, trail);
    } else if trail != "" {
      var n := |trail| - 1;
      assert s[0] == core[0] && s[|s| - 1] == trail[n] && s[..|s| - 1] == lead + core + trail[..n];
      StripsAround(lead, core, trail[..n]);
    } else {
      assert s == core;
    }
  }

  lemma {:induction false} Stripped(s: string) returns (lead: string, trail: string)
    ensures s == lead + Strip(s) + trail && AllSpace(lead) && AllSpace(trail)
    decreases |s|
  {
    lead, trail := "", "";
    if s != "" && IsSpace(s[0]) {
      lead, trail := Stripped(s[1..]);
      lead := [s[0]] + lead;
    } else if s != "" && IsSpace(s[|s| - 1]) {
      lead, trail := Stripped(s[..|s| - 1]);
      trail := trail + [s[|s| - 1]];
    }
  }

  /** `int` accepts exactly these texts, and gives the number they stand for. */
  lemma ParseIntIs(s: string, n: int)
    ensures ParseInt(s) == Some(n) <==> IsIntText(s, n)
  {
    if ParseInt(s) == Some(n) {
      var lead, sign, digits, trail := SpelledAs(s, n);
    }
    if IsIntText(s, n) {
      var lead, sign, digits, trail :| Spells(s, n, lead, sign, digits, trail);
      SpelledIsParsed(s, n, lead, sign, digits, trail);
    }
  }

  lemma SpelledAs(s: string, n: int) returns (lead: string, sign: string, digits: string, trail: string)
    requires ParseInt(s) == Some(n)
    ensures Spells(s, n, lead, sign, digits, trail)
  {
    lead, trail := Stripped(s);
    var t := Strip(s);
    sign := if t[0] == '-' then "-" else if t[0] == '+' then "+" else "";
    digits := t[|sign|..];
    ParseNatIs(digits);
    assert t == sign + digits;
  }

  lemma SpelledIsParsed(s: string, n: int, lead: string, sign: string, digits: string, trail: string)
    requires Spells(s, n, lead, sign, digits, trail)
    ensures ParseInt(s) == Some(n)
  {
    var t := sign + digits;
    assert t[0] == (if sign == "" then digits[0] else sign[0]) && !IsSpace(t[0]);
    assert t[|t| - 1] == digits[|digits| - 1] && t[|sign|..] == digits;
    StripsAround(lead, t, trail);
    ParseNatIs(digits);
  }

  ghost predicate IsInt(s: string) {
    exists n :: IsIntText(s, n)
  }

  lemma NotAnInt(s: string)
    ensures ParseInt(s).None? <==> !IsInt(s)
  {
    forall n ensures ParseInt(s) == Some(n) <==> IsIntText(s, n) {
      ParseIntIs(s, n);
    }
    if ParseInt(s).Some? { assert IsIntText(s, ParseInt(s).value); }
  }

  // ----- the envelope -----

  function ToFields(e: StreamEnvelope): Fields {
    map["schema_version" := PrintInt(e.schemaVersion), "payload" := e.payload]
  }

  function FromFields(fields: Fields): Parsed<StreamEnvelope> {
    if "schema_version" !in fields then Invalid(KeyError("schema_version"))
    else
      var version := ParseInt(fields["schema_version"]);
      if version.None? then
        Invalid(ValueError("invalid literal for int() with base 10: '" + fields["schema_version"] + "'"))
      else if "payload" !in fields then Invalid(KeyError("payload"))
      else Valid(StreamEnvelope(version.value, fields["payload"]))
  }

  /** Every envelope survives the stream, whatever its version and payload. */
  lemma EnvelopeRoundTrip(e: StreamEnvelope)
    ensures FromFields(ToFields(e)) == Valid(e)
  {
    PrintParse(e.schemaVersion);
  }

  /** The JSON encoding of an event and its validation, which stay abstract. */
  datatype Codec = Codec(dump: TransactionEvent -> string, load: string -> Parsed<TransactionEvent>)

  /** `StreamEnvelope.from_fields(fields).to_event()`. */
  function ToEvent(codec: Codec, fields: Fields): Parsed<TransactionEvent> {
    match FromFields(fields)
    case Invalid(e) => Invalid(e)
    case Valid(envelope) => codec.load(envelope.payload)
  }

  /** The entry can be read, as this event: it has a version, which is an integer, and a payload,
      which is the JSON of the event. */
  ghost predicate ReadsAs(codec: Codec, fields: Fields, event: TransactionEvent) {
    && "schema_version" in fields && IsInt(fields["schema_version"])
    && "payload" in fields && codec.load(fields["payload"]) == Valid(event)
  }

  /** The entry cannot be read, for the first of these reasons that applies; `text` is what the
      exception says. */
  ghost predicate FailsWith(codec: Codec, fields: Fields, error: ParseError, text: string) {
    if "schema_version" !in fields then
      error == KeyError("schema_version") && text == "'schema_version'"
    else if !IsInt(fields["schema_version"]) then
      && text == "invalid literal for int() with base 10: '" + fields["schema_version"] + "'"
      && error == ValueError(text)
    else if "payload" !in fields then
      error == KeyError("payload") && text == "'payload'"
    else
      && codec.load(fields["payload"]) == Invalid(error)
      && match error
         case KeyError(key) => text == "'" + key + "'"
         case ValueError(t) => text == t
  }

  /** Which entries are read, as what, and how each of the others fails. */
  lemma ReadableIs(codec: Codec, fields: Fields)
    ensures forall event :: ToEvent(codec, fields) == Valid(event) <==> ReadsAs(codec, fields, event)
    ensures forall error, text ::
      ToEvent(codec, fields) == Invalid(error) && text == Text(error) <==> FailsWith(codec, fields, error, text)
  {
    if "schema_version" in fields { NotAnInt(fields["schema_version"]); }
    assert "'" + "schema_version" + "'" == "'schema_version'" && "'" + "payload" + "'" == "'payload'";
  }

  /** What `publish` puts on the stream: an envelope of version 1. */
  function Published(codec: Codec, event: TransactionEvent): Fields {
    ToFields(StreamEnvelope(1, codec.dump(event)))
  }

  /** A published event is read back unchanged, if the payload encoding is faithful to it. */
  lemma PublishedIsReadBack(codec: Codec, event: TransactionEvent)
    requires codec.load(codec.dump(event)) == Valid(event)
    ensures ToEvent(codec, Published(codec, event)) == Valid(event)
  {
    EnvelopeRoundTrip(StreamEnvelope(1, codec.dump(event)));
  }

  // ----- dead letters -----

  /** What dead-lettering writes: the raw fields, with the reason added. */
  function DeadLetter(fields: Fields, reason: string): (letter: Fields)
    ensures IsLetter(letter, fields, reason)
  {
    fields["reason" := reason]
  }

  /** The letter gives this reason, and is otherwise made of these fields: no other is added,
      changed or lost. */
  predicate IsLetter(letter: Fields, fields: Fields, reason: string) {
    && letter.Keys == fields.Keys + {"reason"} && letter["reason"] == reason
    && forall key <- fields.Keys - {"reason"} :: letter[key] == fields[key]
  }

  /** A dead letter with this reason is among these, and is otherwise made of these fields. */
  predicate HasLetter(letters: seq<Fields>, fields: Fields, reason: string) {
    exists letter :: letter in letters && IsLetter(letter, fields, reason)
  }

  lemma HasLetterGrows(letters: seq<Fields>, letters': seq<Fields>, fields: Fields, reason: string)
    requires letters <= letters' && HasLetter(letters, fields, reason)
    ensures HasLetter(letters', fields, reason)
  {
    var letter :| letter in letters && IsLetter(letter, fields, reason);
    assert letter in letters';
  }

  /** Whatever the reason says, a letter is read as the entry it was made from. */
  lemma LetterIsRead(codec: Codec, letter: Fields, fields: Fields, reason: string)
    requires IsLetter(letter, fields, reason)
    ensures ToEvent(codec, letter) == ToEvent(codec, fields)
  {
    assert "schema_version" != "reason" && "payload" != "reason" by {
      assert |"payload"| != |"reason"| && |"schema_version"| != |"reason"|;
    }
    assert "schema_version" in letter <==> "schema_version" in fields;
    assert "payload" in letter <==> "payload" in fields;
  }

  /** Taking the reason off a dead letter gives back the original entry exactly when the entry
      had no `reason` field of its own; the envelope and the event come back always. */
  lemma ReplayRestores(codec: Codec, fields: Fields, reason: string)
    ensures DeadLetter(fields, reason) - {"reason"} == fields <==> "reason" !in fields
    ensures FromFields(DeadLetter(fields, reason) - {"reason"}) == FromFields(fields)
    ensures ToEvent(codec, DeadLetter(fields, reason)) == ToEvent(codec, fields)
  {
    LetterIsRead(codec, DeadLetter(fields, reason), fields, reason);
    var replayed := DeadLetter(fields, reason) - {"reason"};
    assert "schema_version" != "reason" && "payload" != "reason" by {
      assert |"payload"| != |"reason"| && |"schema_version"| != |"reason"|;
    }
    if "reason" !in fields {
      assert replayed == fields;
    }
  }
}
