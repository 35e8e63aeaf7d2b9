/** Text helpers standing for the JavaScript string operations the source
    relies on: number-to-string of integers, `split`/`join`, `trim`,
    `replace(/"/g, '')`, `toLowerCase` and `includes`. */
module Texto {

  import opened Seqs

  predicate EhDigito(c: char) {
    '0' <= c <= '9'
  }

  function DigitoChar(d: nat): (c: char)
    requires d < 10
    ensures EhDigito(c)
  {
    (('0' as int) + d) as char
  }

  /** Decimal rendering of a natural number, as JavaScript's template strings
      print an integer-valued number. */
  function NatParaTexto(n: nat): (s: string)
    ensures |s| >= 1
    ensures forall i :: 0 <= i < |s| ==> EhDigito(s[i])
    decreases n
  {
    if n < 10 then [DigitoChar(n)] else NatParaTexto(n / 10) + [DigitoChar(n % 10)]
  }

  /** Decimal rendering of an integer, with a leading '-' when negative. */
  function IntParaTexto(i: int): (s: string)
    ensures |s| >= 1
    ensures s[0] == '-' <==> i < 0
    ensures forall k :: 0 < k < |s| ==> EhDigito(s[k])
  {
    if i < 0 then "-" + NatParaTexto(-i) else NatParaTexto(i)
  }

  /** The renderings the scenarios of a 37-box request against 20 boxes print. */
  lemma TextoTrintaSeteVinte()
    ensures IntParaTexto(37) == "37" && IntParaTexto(20) == "20"
  {
    assert NatParaTexto(3) == "3";
    assert NatParaTexto(2) == "2";
  }

  /** The number a string of decimal digits denotes. */
  function ValorDecimal(s: string): nat
    requires forall i :: 0 <= i < |s| ==> EhDigito(s[i])
  {
    if |s| == 0 then 0
    else 10 * ValorDecimal(s[..|s| - 1]) + ValorDigito(s[|s| - 1])
  }

  function ValorDigito(c: char): nat
    requires EhDigito(c)
  {
    (c as int) - ('0' as int)
  }

  /** Reading back the digits printed for `n` gives `n`. */
  lemma {:induction false} NatParaTextoValor(n: nat)
    ensures ValorDecimal(NatParaTexto(n)) == n
    decreases n
  {
    if n >= 10 {
      NatParaTextoValor(n / 10);
      var s := NatParaTexto(n);
      assert s[..|s| - 1] == NatParaTexto(n / 10);
    }
  }

  /** `String.prototype.split(sep)` with a one-character separator. */
  function Split(s: string, sep: char): (r: seq<string>)
    ensures |r| >= 1
    ensures forall i :: 0 <= i < |r| ==> sep !in r[i]
    decreases |s|
  {
    if |s| == 0 then [""]
    else
      var rest := Split(s[1..], sep);
      if s[0] == sep then [""] + rest
      else [[s[0]] + rest[0]] + rest[1..]
  }

  /** `Array.prototype.join(sep)` of a non-empty list. */
  function Join(parts: seq<string>, sep: char): string
    requires |parts| >= 1
    decreases |parts|
  {
    if |parts| == 1 then parts[0] else parts[0] + [sep] + Join(parts[1..], sep)
  }

  lemma {:induction false} SplitSemSeparador(a: string, sep: char)
    requires sep !in a
    ensures Split(a, sep) == [a]
    decreases |a|
  {
    if |a| > 0 {
      SplitSemSeparador(a[1..], sep);
      assert [a[0]] + a[1..] == a;
    }
  }

  lemma {:induction false} SplitPrimeiro(a: string, b: string, sep: char)
    requires sep !in a
    ensures Split(a + [sep] + b, sep) == [a] + Split(b, sep)
    decreases |a|
  {
    var s := a + [sep] + b;
    if |a| == 0 {
      assert s[1..] == b;
    } else {
      assert s[1..] == a[1..] + [sep] + b;
      SplitPrimeiro(a[1..], b, sep);
      assert [a[0]] + a[1..] == a;
    }
  }

  /** Splitting a join of separator-free parts gives the parts back. */
  lemma {:induction false} SplitJoin(parts: seq<string>, sep: char)
    requires |parts| >= 1
    requires forall i :: 0 <= i < |parts| ==> sep !in parts[i]
    ensures Split(Join(parts, sep), sep) == parts
    decreases |parts|
  {
    if |parts| == 1 {
      SplitSemSeparador(parts[0], sep);
    } else {
      SplitJoin(parts[1..], sep);
      SplitPrimeiro(parts[0], Join(parts[1..], sep), sep);
      assert [parts[0]] + parts[1..] == parts;
    }
  }

  /** A character outside every part and different from the separator is
      outside the join. */
  lemma {:induction false} JoinSemCaractere(parts: seq<string>, sep: char, c: char)
    requires |parts| >= 1 && c != sep
    requires forall i :: 0 <= i < |parts| ==> c !in parts[i]
    ensures c !in Join(parts, sep)
    decreases |parts|
  {
    if |parts| > 1 {
      JoinSemCaractere(parts[1..], sep, c);
    }
  }

  /** A join ends with the last character of its last part. */
  lemma {:induction false} JoinUltimo(parts: seq<string>, sep: char)
    requires |parts| >= 1 && |parts[|parts| - 1]| > 0
    ensures |Join(parts, sep)| > 0
    ensures Join(parts, sep)[|Join(parts, sep)| - 1] == parts[|parts| - 1][|parts[|parts| - 1]| - 1]
    decreases |parts|
  {
    if |parts| > 1 {
      JoinUltimo(parts[1..], sep);
    }
  }

  /** A join starts with the first character of its first part. */
  lemma JoinPrimeiro(parts: seq<string>, sep: char)
    requires |parts| >= 1 && |parts[0]| > 0
    ensures |Join(parts, sep)| > 0 && Join(parts, sep)[0] == parts[0][0]
  {
  }

  /** Joining the pieces of a split restores the string. */
  lemma {:induction false} JoinSplit(s: string, sep: char)
    ensures Join(Split(s, sep), sep) == s
    decreases |s|
  {
    if |s| > 0 {
      JoinSplit(s[1..], sep);
      var rest := Split(s[1..], sep);
      if s[0] != sep && |rest| > 1 {
        assert Join(rest, sep) == rest[0] + [sep] + Join(rest[1..], sep);
        assert ([[s[0]] + rest[0]] + rest[1..])[1..] == rest[1..];
      }
    }
  }

  /** The characters `String.prototype.trim` removes (ECMAScript WhiteSpace
      and LineTerminator). */
  predicate EhEspaco(c: char) {
    c == ' ' || c == '\t' || c == '\n' || c == '\r' || c == '\U{000B}' || c == '\U{000C}' ||
    c == '\U{00A0}' || c == '\U{FEFF}' || c == '\U{1680}' || ('\U{2000}' <= c <= '\U{200A}') ||
    c == '\U{2028}' || c == '\U{2029}' || c == '\U{202F}' || c == '\U{205F}' || c == '\U{3000}'
  }

  function TrimInicio(s: string): (r: string)
    ensures |r| <= |s| && r == s[|s| - |r|..]
    ensures |r| > 0 ==> !EhEspaco(r[0])
    ensures forall i :: 0 <= i < |s| - |r| ==> EhEspaco(s[i])
    decreases |s|
  {
    if |s| > 0 && EhEspaco(s[0]) then TrimInicio(s[1..]) else s
  }

  function TrimFim(s: string): (r: string)
    ensures |r| <= |s| && r == s[..|r|]
    ensures |r| > 0 ==> !EhEspaco(r[|r| - 1])
    ensures forall i :: |r| <= i < |s| ==> EhEspaco(s[i])
    decreases |s|
  {
    if |s| > 0 && EhEspaco(s[|s| - 1]) then TrimFim(s[..|s| - 1]) else s
  }

  /** `String.prototype.trim`. */
  function Trim(s: string): string {
    TrimFim(TrimInicio(s))
  }

  /** A trimmed string is empty exactly when the string is all white space. */
  lemma TrimVazio(s: string)
    ensures Trim(s) == "" <==> forall i :: 0 <= i < |s| ==> EhEspaco(s[i])
  {
  }

  /** Trimming leaves a string that starts and ends with non-space alone. */
  lemma TrimIdentidade(s: string)
    requires |s| > 0 && !EhEspaco(s[0]) && !EhEspaco(s[|s| - 1])
    ensures Trim(s) == s
  {
  }

  /** Lines that start and end with non-space survive trimming of their join. */
  lemma TrimJoin(linhas: seq<string>, sep: char)
    requires |linhas| >= 1 && |linhas[0]| > 0 && |linhas[|linhas| - 1]| > 0
    requires !EhEspaco(linhas[0][0]) && !EhEspaco(linhas[|linhas| - 1][|linhas[|linhas| - 1]| - 1])
    ensures Trim(Join(linhas, sep)) == Join(linhas, sep)
  {
    JoinPrimeiro(linhas, sep);
    JoinUltimo(linhas, sep);
    TrimIdentidade(Join(linhas, sep));
  }

  /** `s.replace(/"/g, '')`. */
  function RemoverAspas(s: string): (r: string)
    ensures '"' !in r
  {
    Filter(s, c => c != '"')
  }

  lemma RemoverAspasSemAspas(s: string)
    requires '"' !in s
    ensures RemoverAspas(s) == s
  {
    FilterAll(s, c => c != '"');
  }

  /** Wrapping in double quotes and stripping them again is the identity for
      quote-free text. */
  lemma RemoverAspasEnvolvidas(s: string)
    requires '"' !in s
    ensures RemoverAspas("\"" + s + "\"") == s
  {
    var p := (c: char) => c != '"';
    FilterConcat("\"" + s, "\"", p);
    FilterConcat("\"", s, p);
    FilterAll(s, p);
  }

  /** `Boolean.prototype.toString`. */
  function TextoBooleano(b: bool): string {
    if b then "true" else "false"
  }

  function Minuscula(c: char): char {
    if 'A' <= c <= 'Z' then ((c as int) + 32) as char else c
  }

  /** `String.prototype.toLowerCase`, on the ASCII letters. */
  function ParaMinusculas(s: string): (r: string)
    ensures |r| == |s|
  {
    Map(s, Minuscula)
  }

  predicate ComecaCom(s: string, t: string) {
    |t| <= |s| && s[..|t|] == t
  }

  /** `t` occurs in `s` starting at position `i`. */
  predicate OcorreEm(s: string, t: string, i: int) {
    0 <= i <= |s| - |t| && s[i..i + |t|] == t
  }

  /** `String.prototype.includes`: some position of `s` starts a copy of `t`. */
  predicate Contem(s: string, t: string)
    decreases |s|
  {
    ComecaCom(s, t) || (|s| > 0 && Contem(s[1..], t))
  }

  /** `Contem` agrees with the positional definition of a substring. */
  lemma {:induction false} ContemPosicao(s: string, t: string)
    ensures Contem(s, t) <==> exists i :: OcorreEm(s, t, i)
    decreases |s|
  {
    if ComecaCom(s, t) {
      assert OcorreEm(s, t, 0);
    }
    if |s| > 0 {
      ContemPosicao(s[1..], t);
      if Contem(s[1..], t) {
        var i :| OcorreEm(s[1..], t, i);
        assert s[i + 1..i + 1 + |t|] == s[1..][i..i + |t|];
        assert OcorreEm(s, t, i + 1);
      }
      if exists i :: OcorreEm(s, t, i) {
        var i :| OcorreEm(s, t, i);
        if i > 0 {
          assert s[1..][i - 1..i - 1 + |t|] == s[i..i + |t|];
          assert OcorreEm(s[1..], t, i - 1);
        }
      }
    } else {
      if exists i :: OcorreEm(s, t, i) {
        var i :| OcorreEm(s, t, i);
        assert i == 0;
      }
    }
  }
}
