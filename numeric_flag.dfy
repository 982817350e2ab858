/**
 * The numeric-comparison parser behind the IV flags (`--iv > 80`, `--hpiv 31`,
 * `--atkiv <10`): `parse_numerical_flag` of cogs/pokemon.py.
 */
module NumericFlag {
  import opened Wrappers
  import opened Text

  datatype Op = Lt | Eq | Gt

  /** An accepted comparison: the operator and the operand exactly as typed (a digit string). */
  datatype Comparison = Comparison(op: Op, digits: string)

  function Symbol(op: Op): string {
    match op
    case Lt => "<"
    case Eq => "="
    case Gt => ">"
  }

  /** The operator a token names, when it is one of `<`, `=`, `>`. */
  function OpOf(s: string): (r: Option<Op>)
    ensures r.Some? <==> s in ["<", "=", ">"]
    ensures r.Some? ==> Symbol(r.value) == s
  {
    if s == "<" then Some(Lt) else if s == "=" then Some(Eq) else if s == ">" then Some(Gt) else None
  }

  /**
   * The token lists on which the parser does not raise: a single token must be
   * non-empty, since the source reads its first character.
   */
  predicate Parsable(text: seq<string>) {
    |text| == 1 ==> |text[0]| > 0
  }

  /**
   * `parse_numerical_flag`: one token that is all digits means `=`; one token
   * that does not start with a digit is split into its first character and the
   * rest; two tokens are taken as they are. The result is accepted only when
   * the operator is `<`, `=` or `>` and the operand is a digit string.
   */
  function ParseNumericalFlag(text: seq<string>): (r: Option<Comparison>)
    requires Parsable(text)
    ensures r.Some? ==> IsDigits(r.value.digits)
    ensures !(1 <= |text| <= 2) ==> r == None
  {
    if !(1 <= |text| <= 2) then None
    else
      var ops :=
        if |text| == 1 && IsDigits(text[0]) then ["=", text[0]]
        else if |text| == 1 && !IsDigitChar(text[0][0]) then [[text[0][0]], text[0][1..]]
        else text;
      if OpOf(ops[0]).None? then None
      else
        assert |ops| == 2;
        if !IsDigits(ops[1]) then None
        else Some(Comparison(OpOf(ops[0]).value, ops[1]))
  }

  /** What a comparison says about a value `x`: `x < n`, `x == n` or `x > n` for the operand `n`. */
  predicate Accepts(c: Comparison, x: int)
    requires IsDigits(c.digits)
  {
    match c.op
    case Lt => x < ValueOf(c.digits)
    case Eq => x == ValueOf(c.digits)
    case Gt => x > ValueOf(c.digits)
  }

  /**
   * The token lists that denote comparison `c`: the operator and the operand as
   * two tokens, glued into one token, or (for `=` only) the operand alone.
   */
  predicate Denotes(text: seq<string>, c: Comparison) {
    && IsDigits(c.digits)
    && (|| text == [Symbol(c.op), c.digits]
        || text == [Symbol(c.op) + c.digits]
        || (c.op == Eq && text == [c.digits]))
  }

  /** The parser accepts exactly the token lists that denote a comparison, and returns that comparison. */
  lemma ParseIffDenotes(text: seq<string>, c: Comparison)
    requires Parsable(text)
    ensures ParseNumericalFlag(text) == Some(c) <==> Denotes(text, c)
  {
    if Denotes(text, c) {
      if text == [Symbol(c.op) + c.digits] && text != [c.digits] {
        var t := text[0];
        assert t[0] == Symbol(c.op)[0];
        assert !IsDigits(t);
        assert [t[0]] == Symbol(c.op);
        assert t[1..] == c.digits;
      }
    }
    if ParseNumericalFlag(text) == Some(c) {
      if |text| == 1 && !IsDigits(text[0]) {
        var t := text[0];
        assert t == [t[0]] + t[1..];
      }
    }
  }

  /** Examples of accepted flags. */
  lemma ParseAcceptedExamples()
    ensures ParseNumericalFlag([">12"]) == Some(Comparison(Gt, "12"))
    ensures ParseNumericalFlag(["7"]) == Some(Comparison(Eq, "7"))
    ensures ParseNumericalFlag(["<", "31"]) == Some(Comparison(Lt, "31"))
  {
    assert ">12"[1..] == "12";
    assert ">12"[0] == '>';
  }

  /** Examples of rejected flags: an operator without operand, no operator, two operators, too many tokens. */
  lemma ParseRejectedExamples()
    ensures ParseNumericalFlag(["<"]) == None
    ensures ParseNumericalFlag(["abc"]) == None
    ensures ParseNumericalFlag(["<>"]) == None
    ensures ParseNumericalFlag(["1a"]) == None
    ensures ParseNumericalFlag(["=", "1", "2"]) == None
  {
    assert "<"[0] == '<' && "abc"[0] == 'a' && "<>"[0] == '<';
    assert "<"[1..] == "" && ["<"[0]] == "<";
    assert "abc"[1..] == "bc" && ["abc"[0]] == "a";
    assert "<>"[1..] == ">" && ">"[0] == '>';
    assert "1a"[1] == 'a' && "1a"[0] == '1';
  }
}
