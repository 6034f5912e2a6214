/** The SQL Server renderings of ADQL mathematical functions. SQL Server returns the argument's
    own type from several of them where ADQL wants a double, so their argument is converted to
    float first; MOD, TRUNCATE and ATAN2 have SQL Server spellings of their own. */
module SQLServerFunctions {
  import opened Wrappers
  import opened JavaStrings
  import opened AdqlTree
  import opened SQLServerTranslator

  /** The translation of parameter `i`, or the error raised when the function has no such
      parameter. */
  function Parameter(env: Callees, f: MathFunction, i: nat): (r: Result<string, TranslationError>)
    ensures r.Success? <==> i < |f.parameters|
    ensures r.Success? ==> r.value == env.operand(f.parameters[i])
    ensures r.Failure? ==> r.error == MissingParameter(f.kind, i)
  {
    if i < |f.parameters| then Success(env.operand(f.parameters[i])) else Failure(MissingParameter(f.kind, i))
  }

  /** The functions whose argument is converted to float before SQL Server applies them. */
  predicate FloatCoerced(kind: MathFunctionType)
  {
    kind == ABS || kind == CEILING || kind == DEGREES || kind == FLOOR || kind == RADIANS
  }

  /** The functions with a rendering of their own; all others use the generic one. */
  predicate Overridden(kind: MathFunctionType)
  {
    FloatCoerced(kind) || kind == TRUNCATE || kind == MOD || kind == ATAN2 || kind == ROUND
  }

  /** How many parameters a rendering reads unconditionally. */
  function ParametersRead(kind: MathFunctionType): nat
  {
    if kind == ATAN2 || kind == ROUND then 2 else if FloatCoerced(kind) then 1 else 0
  }

  /** The name of a function kind as the ADQL enumeration spells it. */
  function KindName(kind: MathFunctionType): string
  {
    match kind
    case ABS => "ABS" case CEILING => "CEILING" case DEGREES => "DEGREES" case EXP => "EXP"
    case FLOOR => "FLOOR" case LOG => "LOG" case LOG10 => "LOG10" case MOD => "MOD" case PI => "PI"
    case POWER => "POWER" case RADIANS => "RADIANS" case SQRT => "SQRT" case TRUNCATE => "TRUNCATE"
    case RAND => "RAND" case ROUND => "ROUND" case ACOS => "ACOS" case ASIN => "ASIN"
    case ATAN => "ATAN" case ATAN2 => "ATAN2" case COS => "COS" case COT => "COT" case SIN => "SIN"
    case TAN => "TAN"
  }

  /** `name(convert(float, a))`, failing when the argument is missing. */
  function Coerced(env: Callees, f: MathFunction, name: string): Result<string, TranslationError>
  {
    var a := Parameter(env, f, 0);
    if a.Failure? then Failure(a.error) else Success(name + "(convert(float, " + a.value + "))")
  }

  /** translate(MathFunction). A rendering fails only when it reads a parameter the function
      does not have, and then names the first missing one. */
  function TranslateMath(env: Callees, f: MathFunction): (r: Result<string, TranslationError>)
    ensures r.Failure? <==> |f.parameters| < ParametersRead(f.kind)
    ensures r.Failure? ==> r.error == MissingParameter(f.kind, |f.parameters|)
  {
    match f.kind
    case TRUNCATE =>
      Success("round(convert(float, "
              + (if |f.parameters| >= 2 then env.operand(f.parameters[0]) + ", " + env.operand(f.parameters[1]) else "")
              + "),1)")
    case MOD =>
      Success(if |f.parameters| >= 2
              then "convert(float, " + env.operand(f.parameters[0]) + ") % convert(float, " + env.operand(f.parameters[1]) + ")"
              else "")
    case ATAN2 =>
      var a := Parameter(env, f, 0);
      if a.Failure? then Failure(a.error)
      else
        var b := Parameter(env, f, 1);
        if b.Failure? then Failure(b.error) else Success("ATN2(" + a.value + ", " + b.value + ")")
    case ABS => Coerced(env, f, "abs")
    case CEILING => Coerced(env, f, "ceiling")
    case DEGREES => Coerced(env, f, "degrees")
    case FLOOR => Coerced(env, f, "floor")
    case RADIANS => Coerced(env, f, "radians")
    case ROUND =>
      var a := Parameter(env, f, 0);
      if a.Failure? then Failure(a.error)
      else
        var b := Parameter(env, f, 1);
        if b.Failure? then Failure(b.error) else Success("round(convert(float, " + a.value + ")" + ", " + b.value + ")")
    case _ => Success(env.defaultFunction(f))
  }

  /** Every function without an override is rendered by the generic renderer, never failing. */
  lemma DefaultRendering(env: Callees, f: MathFunction)
    requires !Overridden(f.kind)
    ensures TranslateMath(env, f) == Success(env.defaultFunction(f))
  {
  }

  /** ABS, CEILING, DEGREES, FLOOR and RADIANS keep their (lower-cased) ADQL name and convert
      their argument to float. */
  lemma FloatCoercion(env: Callees, f: MathFunction)
    requires FloatCoerced(f.kind) && |f.parameters| >= 1
    ensures TranslateMath(env, f)
            == Success(ToLowerCase(KindName(f.kind)) + "(convert(float, " + env.operand(f.parameters[0]) + "))")
  {
    LowerCaseName(f.kind);
  }

  lemma LowerCaseName(kind: MathFunctionType)
    requires FloatCoerced(kind)
    ensures kind == ABS ==> ToLowerCase(KindName(kind)) == "abs"
    ensures kind == CEILING ==> ToLowerCase(KindName(kind)) == "ceiling"
    ensures kind == DEGREES ==> ToLowerCase(KindName(kind)) == "degrees"
    ensures kind == FLOOR ==> ToLowerCase(KindName(kind)) == "floor"
    ensures kind == RADIANS ==> ToLowerCase(KindName(kind)) == "radians"
  {
  }

  /** MOD of two arguments is the float remainder; with fewer it degenerates to "". */
  lemma ModRendering(env: Callees, f: MathFunction)
    requires f.kind == MOD
    ensures |f.parameters| < 2 ==> TranslateMath(env, f) == Success("")
    ensures |f.parameters| >= 2 ==>
              TranslateMath(env, f)
              == Success("convert(float, " + env.operand(f.parameters[0]) + ") % convert(float, "
                         + env.operand(f.parameters[1]) + ")")
  {
  }

  /** ATAN2 of two arguments is SQL Server's ATN2; with fewer it names the first missing one. */
  lemma Atan2Rendering(env: Callees, f: MathFunction)
    requires f.kind == ATAN2
    ensures |f.parameters| >= 2 ==>
              TranslateMath(env, f)
              == Success("ATN2(" + env.operand(f.parameters[0]) + ", " + env.operand(f.parameters[1]) + ")")
    ensures |f.parameters| < 2 ==> TranslateMath(env, f) == Failure(MissingParameter(ATAN2, |f.parameters|))
  {
  }

  /** ROUND converts its first argument to float and keeps the second as the precision. */
  lemma RoundRendering(env: Callees, f: MathFunction)
    requires f.kind == ROUND
    ensures |f.parameters| >= 2 ==>
              TranslateMath(env, f)
              == Success("round(convert(float, " + env.operand(f.parameters[0]) + "), "
                         + env.operand(f.parameters[1]) + ")")
    ensures |f.parameters| < 2 ==> TranslateMath(env, f) == Failure(MissingParameter(ROUND, |f.parameters|))
  {
    if |f.parameters| >= 2 {
      var a := env.operand(f.parameters[0]);
      var b := env.operand(f.parameters[1]);
      assert "round(convert(float, " + a + ")" + ", " + b + ")" == "round(convert(float, " + a + "), " + b + ")";
    }
  }

  /** TRUNCATE is a round whose third argument asks for truncation; with fewer than two
      arguments the float conversion is left empty. */
  lemma TruncateRendering(env: Callees, f: MathFunction)
    requires f.kind == TRUNCATE
    ensures |f.parameters| < 2 ==> TranslateMath(env, f) == Success("round(convert(float, ),1)")
    ensures |f.parameters| >= 2 ==>
              TranslateMath(env, f)
              == Success("round(convert(float, " + env.operand(f.parameters[0]) + ", "
                         + env.operand(f.parameters[1]) + "),1)")
  {
    if |f.parameters| < 2 {
      assert "round(convert(float, " + "" + "),1)" == "round(convert(float, ),1)";
    } else {
      var a := env.operand(f.parameters[0]);
      var b := env.operand(f.parameters[1]);
      assert "round(convert(float, " + (a + ", " + b) + "),1)" == "round(convert(float, " + a + ", " + b + "),1)";
    }
  }

  /** Only the first two parameters of any function are ever read by an override. */
  lemma OverridesReadTwoParameters(env: Callees, f: MathFunction, extra: seq<Operand>)
    requires Overridden(f.kind) && |f.parameters| >= 2
    ensures TranslateMath(env, f.(parameters := f.parameters + extra))
            == TranslateMath(env, f.(parameters := f.parameters[..2]))
  {
    var longer := f.(parameters := f.parameters + extra);
    var shorter := f.(parameters := f.parameters[..2]);
    assert longer.parameters[0] == shorter.parameters[0] && longer.parameters[1] == shorter.parameters[1];
  }
}
