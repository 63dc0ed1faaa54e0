/** The value a compilation step produces (compiler/cvalues.ts) and its
    rendering as an instruction operand. */
module CValues {
  import opened Numerals

  datatype CompilerValue =
    | NumberVal(n: nat)        // an immediate
    | RegisterVal(reg: nat)    // a register number
    | PointerVal(addr: nat)    // a frame address
    | LabelVal(text: string)  // a data-section label

  /** `toString`: decimal text, `M` + address, `R` + register, or the label
      itself. Each kind can be read back from its text. */
  function ToString(v: CompilerValue): (s: string)
    ensures v.NumberVal? ==> |s| > 0 && IsDigits(s) && DecimalValue(s) == v.n
    ensures v.PointerVal? ==> |s| > 1 && s[0] == 'M' && IsDigits(s[1..]) && DecimalValue(s[1..]) == v.addr
    ensures v.RegisterVal? ==> |s| > 1 && s[0] == 'R' && IsDigits(s[1..]) && DecimalValue(s[1..]) == v.reg
    ensures v.LabelVal? ==> s == v.text
  {
    match v
    case NumberVal(n) =>
      DecimalRoundTrip(n);
      NatToString(n)
    case PointerVal(a) =>
      DecimalRoundTrip(a);
      assert ("M" + NatToString(a))[1..] == NatToString(a);
      "M" + NatToString(a)
    case RegisterVal(r) =>
      DecimalRoundTrip(r);
      assert ("R" + NatToString(r))[1..] == NatToString(r);
      "R" + NatToString(r)
    case LabelVal(l) => l
  }

  /** Two registers (or two frame addresses) render alike only if they are
      the same, and a register never renders like an address or an immediate. */
  lemma RenderingDistinguishes(a: CompilerValue, b: CompilerValue)
    requires !a.LabelVal? && !b.LabelVal?
    requires ToString(a) == ToString(b)
    ensures a == b
  {
    var s := ToString(a);
    if !a.NumberVal? && !b.NumberVal? {
      assert s[1..] == ToString(b)[1..];
    }
  }
}
