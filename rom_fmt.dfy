/** The ROM container tag and its textual form: `FromStr` and `Display` for `Format`. */
module RomFmt {
  /** The three container kinds a ROM file may be stored in. Only the tag exists; no conversion between them. */
  datatype Format = Bin | Smd | Md

  datatype Result<T, E> = Ok(value: T) | Err(error: E)

  /** The error text `from_str` returns for every string it does not recognise. */
  const UNKNOWN_FORMAT: string := "invalid or unknown format"

  /** `Format::from_str`: exact, case-sensitive recognition of the three lower-case names. */
  function FromStr(s: string): (r: Result<Format, string>)
    ensures r.Ok? <==> s in {"bin", "smd", "md"}
    ensures r.Err? ==> r.error == UNKNOWN_FORMAT
    ensures s == "bin" ==> r == Ok(Bin)
    ensures s == "smd" ==> r == Ok(Smd)
    ensures s == "md" ==> r == Ok(Md)
  {
    match s
    case "bin" => Ok(Bin)
    case "smd" => Ok(Smd)
    case "md" => Ok(Md)
    case _ => Err(UNKNOWN_FORMAT)
  }

  /** `Display for Format`: the lower-case name of the tag. */
  function Display(f: Format): (s: string)
    ensures f == Bin ==> s == "bin"
    ensures f == Smd ==> s == "smd"
    ensures f == Md ==> s == "md"
  {
    match f
    case Bin => "bin"
    case Smd => "smd"
    case Md => "md"
  }

  /** Parsing what `Display` prints gives the tag back. */
  lemma ParseDisplay(f: Format)
    ensures FromStr(Display(f)) == Ok(f)
  {
  }

  /** Whatever `from_str` accepts is printed back unchanged by `Display`. */
  lemma DisplayParse(s: string, f: Format)
    requires FromStr(s) == Ok(f)
    ensures Display(f) == s
  {
  }

  /** Distinct tags print as distinct strings. */
  lemma DisplayInjective(f: Format, g: Format)
    requires Display(f) == Display(g)
    ensures f == g
  {
    ParseDisplay(f);
    ParseDisplay(g);
  }

  /** Recognition is case-sensitive: upper-case names are refused. */
  lemma UpperCaseRefused()
    ensures FromStr("BIN") == Err(UNKNOWN_FORMAT)
    ensures FromStr("SMD") == Err(UNKNOWN_FORMAT)
    ensures FromStr("MD") == Err(UNKNOWN_FORMAT)
  {
  }
}
