/** The closed set of forum categories (`CategoriaEnum`) and the
    case-insensitive name lookup `Enum.TryParse<CategoriaEnum>(s, ignoreCase: true)`
    that post creation relies on.
 */
module Categoria {
  import opened Wrappers
  import opened Text

  datatype CategoriaEnum = Rh | Suporte | Financeiro | Marketing | FiquePorDentro | Qualidade

  /** The members in declaration order. */
  const AllCategorias: seq<CategoriaEnum> :=
    [Rh, Suporte, Financeiro, Marketing, FiquePorDentro, Qualidade]

  /** The member's declared name, as `ToString()` renders it. */
  function Name(c: CategoriaEnum): string {
    match c
    case Rh => "Rh"
    case Suporte => "Suporte"
    case Financeiro => "Financeiro"
    case Marketing => "Marketing"
    case FiquePorDentro => "FiquePorDentro"
    case Qualidade => "Qualidade"
  }

  /** `s` names category `c`, ignoring the case of letters. */
  predicate Names(s: string, c: CategoriaEnum) {
    EqualsIgnoreCase(s, Name(c))
  }

  lemma AllCategoriasComplete(c: CategoriaEnum)
    ensures c in AllCategorias
  {
  }

  /** The first of `cs` whose name matches `s` ignoring case. */
  function FirstNamed(s: string, cs: seq<CategoriaEnum>): (r: Option<CategoriaEnum>)
    ensures r.Some? ==> r.value in cs && Names(s, r.value)
    ensures r.None? <==> forall i :: 0 <= i < |cs| ==> !Names(s, cs[i])
    decreases |cs|
  {
    if |cs| == 0 then None
    else if Names(s, cs[0]) then Some(cs[0])
    else FirstNamed(s, cs[1..])
  }

  /** `Enum.TryParse<CategoriaEnum>(s, true, out c)`: Some(c) when it returns true. */
  function TryParse(s: string): (r: Option<CategoriaEnum>)
    ensures r.Some? ==> Names(s, r.value)
    ensures r.None? <==> forall c :: !Names(s, c)
  {
    var r := FirstNamed(s, AllCategorias);
    assert r.None? ==> forall c :: !Names(s, c) by {
      if r.None? {
        forall c ensures !Names(s, c) {
          AllCategoriasComplete(c);
          var i :| 0 <= i < |AllCategorias| && AllCategorias[i] == c;
        }
      }
    }
    r
  }

  /** No two categories have names that differ only in case. */
  lemma NamesDistinctIgnoringCase(c: CategoriaEnum, d: CategoriaEnum)
    requires c != d
    ensures !EqualsIgnoreCase(Name(c), Name(d))
  {
    var u, v := Upper(Name(c)), Upper(Name(d));
    if |Name(c)| == |Name(d)| {
      // Only Marketing and Qualidade share a length; their first letters differ.
      assert u[0] == UpperAscii(Name(c)[0]) && v[0] == UpperAscii(Name(d)[0]);
      assert u[0] != v[0];
    } else {
      assert |u| != |v|;
    }
  }

  /** A string names at most one category, so the parse answers exactly that category. */
  lemma TryParseExact(s: string, c: CategoriaEnum)
    ensures TryParse(s) == Some(c) <==> Names(s, c)
  {
    if Names(s, c) && TryParse(s) != Some(c) {
      var d := TryParse(s).value;
      assert Names(s, d);
      UpperIdempotent(s);
      NamesDistinctIgnoringCase(c, d);
    }
  }

  /** Every category parses back from its own name. */
  lemma TryParseName(c: CategoriaEnum)
    ensures TryParse(Name(c)) == Some(c)
  {
    TryParseExact(Name(c), c);
  }

  /** Changing the case of letters never changes the parse. */
  lemma TryParseIgnoresCase(a: string, b: string)
    requires EqualsIgnoreCase(a, b)
    ensures TryParse(a) == TryParse(b)
  {
    if TryParse(a).Some? {
      TryParseExact(b, TryParse(a).value);
    } else if TryParse(b).Some? {
      TryParseExact(a, TryParse(b).value);
    }
  }

  /** "rh" and "RH" both parse to Rh. */
  lemma TryParseRhAnyCase()
    ensures TryParse("rh") == Some(Rh)
    ensures TryParse("RH") == Some(Rh)
  {
    assert Upper("rh") == ['R', 'H'];
    assert Upper("Rh") == ['R', 'H'];
    assert Upper("RH") == ['R', 'H'];
    TryParseExact("rh", Rh);
    TryParseExact("RH", Rh);
  }

  /** Names run from 2 ("Rh") to 14 ("FiquePorDentro") characters, so the empty
      string or a longer description such as "Recursos Humanos" is rejected. */
  lemma TryParseRejectsByLength(s: string)
    requires |s| < 2 || |s| > 14
    ensures TryParse(s) == None
  {
    forall c ensures !Names(s, c) {
      NameLength(c);
      EqualsIgnoreCaseLength(s, Name(c));
    }
  }

  lemma NameLength(c: CategoriaEnum)
    ensures 2 <= |Name(c)| <= 14
  {
    match c
    case Rh =>
    case Suporte =>
    case Financeiro =>
    case Marketing =>
    case FiquePorDentro =>
    case Qualidade =>
  }
}
