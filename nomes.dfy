/** The order SQLite's default BINARY collation puts names in (`ORDER BY nome ASC`):
    lexicographic on code points, a proper prefix first. */
module Nomes {

  /** `a` sorts at or before `b`. */
  predicate NomeAntes(a: string, b: string)
  {
    if |a| == 0 then true
    else if |b| == 0 then false
    else if a[0] != b[0] then a[0] < b[0]
    else NomeAntes(a[1..], b[1..])
  }

  lemma {:induction false} NomeAntesReflexiva(a: string)
    ensures NomeAntes(a, a)
  {
    if |a| > 0 {
      NomeAntesReflexiva(a[1..]);
    }
  }

  /** Any two names are comparable. */
  lemma {:induction false} NomeAntesTotal(a: string, b: string)
    ensures NomeAntes(a, b) || NomeAntes(b, a)
  {
    if |a| > 0 && |b| > 0 && a[0] == b[0] {
      NomeAntesTotal(a[1..], b[1..]);
    }
  }

  lemma {:induction false} NomeAntesTransitiva(a: string, b: string, c: string)
    requires NomeAntes(a, b) && NomeAntes(b, c)
    ensures NomeAntes(a, c)
  {
    if |a| > 0 && |b| > 0 && |c| > 0 && a[0] == b[0] && b[0] == c[0] {
      NomeAntesTransitiva(a[1..], b[1..], c[1..]);
    }
  }

  /** Two names that sort at or before each other are the same name. */
  lemma {:induction false} NomeAntesAntissimetrica(a: string, b: string)
    requires NomeAntes(a, b) && NomeAntes(b, a)
    ensures a == b
  {
    if |a| > 0 && |b| > 0 {
      NomeAntesAntissimetrica(a[1..], b[1..]);
      assert a == [a[0]] + a[1..];
      assert b == [b[0]] + b[1..];
    }
  }
}
