// The comparisons of expr_calc_value (tools/kconfig/expr.c): what the values of the symbols
// make of a comparison of two of them.
module SymbolComparison {
  import opened Options
  import opened StringValues
  import opened TristateExpr
  import opened Words

  datatype Kind = KString | KSigned(s: int) | KUnsigned(u: nat)

  // expr_parse_string: how the text of a symbol of this type is understood.
  function ParseString(text: string, typ: SymType): Kind {
    if typ == Boolean || typ == Tri then
      KSigned(if text == "n" then 0 else if text == "m" then 1 else if text == "y" then 2 else -1)
    else if typ == Hex then
      match StrToULL(16, text)
      case Some(u) => KUnsigned(u)
      case None => KString
    else
      match StrToLL(if typ == Int then 10 else 0, text)
      case Some(s) => KSigned(s)
      case None => KString
  }

  function Bits(k: Kind): nat
    requires !k.KString?
  {
    if k.KSigned? then k.s % WORD else k.u
  }

  function Sign(a: int, b: int): int {
    if a < b then -1 else if a > b then 1 else 0
  }

  // The comparison of two symbols of these types and texts.
  function Compare(lt: SymType, rt: SymType, l: string, r: string): int {
    var texts := lt == String && rt == String;
    var k1 := if texts then KString else ParseString(l, lt);
    var k2 := if texts then KString else ParseString(r, rt);
    if k1.KString? || k2.KString? then StrCmp(l, r)
    else if k1.KUnsigned? || k2.KUnsigned? then Sign(Bits(k1), Bits(k2))
    else Sign(k1.s, k2.s)
  }

  // The values of all symbols: as a tristate, and as a text.
  datatype Values = Values(tri: Symbol -> Tristate, text: Symbol -> string)

  // Booleans are never m, boolean and tristate symbols have the text of their value, and
  // constants have their own.
  ghost predicate ValidValues(v: Values) {
    && v.tri(SymYes) == YES && v.tri(SymMod) == MOD && v.tri(SymNo) == NO
    && v.text(SymYes) == "y" && v.text(SymMod) == "m" && v.text(SymNo) == "n"
    && (forall text: string :: v.text(Const(text)) == text)
    && (forall s: Symbol :: TypeOf(s) == Boolean ==> v.tri(s) != MOD)
    && (forall s: Symbol :: IsBoolOrTri(s) ==> v.text(s) == TristateText(v.tri(s)))
  }

  // The assignment that evaluation works with.
  function EnvOf(v: Values): Env {
    Env(v.tri, (l: Symbol, r: Symbol) => Compare(TypeOf(l), TypeOf(r), v.text(l), v.text(r)))
  }

  // A boolean or tristate symbol of value t, compared with a constant.
  lemma CompareWithConstant(typ: SymType, t: Tristate, text: string)
    requires typ == Boolean || typ == Tri
    ensures Compare(typ, Unknown, TristateText(t), text) == 0 <==> Denoted(text) == Some(t)
  {
    StrCmpZero(TristateText(t), text);
  }

  lemma NoNumeral(text: string)
    requires text == "y" || text == "m" || text == "n"
    ensures Denoted(text) == Some(if text == "n" then NO else if text == "m" then MOD else YES)
  {
    assert SkipSpace(text) == text && !IsDigit(text[|text| - 1]);
    assert Number(0, text) == None;
  }

  // Every assignment that the values of the symbols give is a valid one.
  lemma EnvOfIsValid(v: Values)
    requires ValidValues(v)
    ensures ValidEnv(EnvOf(v))
  {
    var env := EnvOf(v);
    NoNumeral("y");
    NoNumeral("m");
    NoNumeral("n");
    forall s: Symbol | IsBoolOrTri(s)
      ensures env.cmp(s, SymYes) == 0 <==> env.tri(s) == YES
      ensures env.cmp(s, SymMod) == 0 <==> env.tri(s) == MOD
      ensures env.cmp(s, SymNo) == 0 <==> env.tri(s) == NO
    {
      CompareWithConstant(TypeOf(s), v.tri(s), "y");
      CompareWithConstant(TypeOf(s), v.tri(s), "m");
      CompareWithConstant(TypeOf(s), v.tri(s), "n");
    }
    forall s: Symbol, text: string | IsBoolOrTri(s)
      ensures env.cmp(s, Const(text)) == 0 <==> Denoted(text) == Some(env.tri(s))
    {
      CompareWithConstant(TypeOf(s), v.tri(s), text);
    }
  }

  // The tristate value that a constant denotes, if any.
  function ConstantValue(c: Symbol): Option<int> {
    match c
    case SymYes => Some(YES)
    case SymMod => Some(MOD)
    case SymNo => Some(NO)
    case Const(text) => Denoted(text)
    case Sym(_, _) => None
  }

  function ConstantTri(t: Tristate, s: Symbol): Tristate {
    match s
    case SymYes => YES
    case SymMod => MOD
    case SymNo => NO
    case Const(_) => NO
    case Sym(_, typ) => if typ == Boolean && t == MOD then YES else t
  }

  function ConstantText(t: Tristate, s: Symbol): string {
    match s
    case SymYes => "y"
    case SymMod => "m"
    case SymNo => "n"
    case Const(text) => text
    case Sym(_, _) => TristateText(ConstantTri(t, s))
  }

  // Values in which every tristate symbol is t.
  lemma AllTristatesAre(t: Tristate) returns (v: Values)
    ensures ValidValues(v) && forall s: Symbol :: TypeOf(s) == Tri ==> v.tri(s) == t
  {
    v := Values((s: Symbol) => ConstantTri(t, s), (s: Symbol) => ConstantText(t, s));
  }

  // Two constants that denote the same value both equal a tristate symbol of that value.
  lemma AliasingValues(a: Symbol, b: Symbol, c: Symbol) returns (v: Values)
    requires TypeOf(a) == Tri && IsConst(b) && IsConst(c)
    requires ConstantValue(b) == ConstantValue(c) && ConstantValue(b).Some?
    ensures ValidValues(v) && EnvOf(v).cmp(a, b) == 0 && EnvOf(v).cmp(a, c) == 0
  {
    v := AllTristatesAre(ConstantValue(b).value);
    EnvOfIsValid(v);
    EqualsItsConstant(a, b, EnvOf(v));
    EqualsItsConstant(a, c, EnvOf(v));
  }

  // A tristate symbol equals exactly the constants that denote its value.
  lemma EqualsItsConstant(a: Symbol, c: Symbol, env: Env)
    requires ValidEnv(env) && TypeOf(a) == Tri && IsConst(c)
    ensures env.cmp(a, c) == 0 <==> ConstantValue(c) == Some(env.tri(a))
  {
    assert IsBoolOrTri(a);
    if c.Const? {
      assert c == Const(c.text);
    }
  }
}
