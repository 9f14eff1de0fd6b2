/** The two per-row helpers of the chunk filter: the phone number built from
    an area code and a number (`formatar_telefone`) and the one-line address
    (`montar_endereco`). Both read a cell with `str()`, so a missing value
    arrives as the text "nan", and both strip whitespace and then quotes. */
module RowFormat {
  import opened Common
  import opened Text

  /** `str(v).strip().strip('"')` */
  function Clean(c: Cell): string
  {
    StripQuotes(Strip(Str(c)))
  }

  /** The decision of `formatar_telefone` on cleaned texts: area code
      followed by number when both are present and the number is not the
      "nan" placeholder, else the empty string. */
  function PhoneText(d: string, t: string): string
  {
    if d != [] && t != [] && !IsNanText(t) then d + t else ""
  }

  /** `formatar_telefone(ddd, telefone)`: both cells are read with `str()`
      and cleaned before the decision. */
  function FormatPhone(ddd: Cell, tel: Cell): (r: string)
    ensures r == [] <==> Clean(ddd) == [] || Clean(tel) == [] || IsNanText(Clean(tel))
    ensures r != [] ==> r == Clean(ddd) + Clean(tel)
  {
    PhoneText(Clean(ddd), Clean(tel))
  }

  /** Area code "31" and number "999999999" give "31999999999"; an empty
      number gives "". */
  lemma PhoneExamples()
    ensures PhoneText("31", "999999999") == "31999999999"
    ensures PhoneText("31", "") == ""
  {
  }

  /** A text with nothing to strip at either end: empty, or starting and
      ending with a character that is neither whitespace nor a quote. */
  predicate Trimmed(s: string)
  {
    s == [] || (!IsSpace(s[0]) && !IsSpace(s[|s| - 1]) && !IsQuote(s[0]) && !IsQuote(s[|s| - 1]))
  }

  /** A trimmed text is left as it is by the cleaning. */
  lemma CleanKeeps(s: string)
    requires Trimmed(s)
    ensures Clean(Some(s)) == s
  {
    StripWithSpec(s, Whitespace);
    StripWithSpec(s, QuoteMark);
  }

  lemma CleanMissing()
    ensures Clean(None) == "nan"
  {
    CleanKeeps("nan");
  }

  /** Trimmed area code and number, the number not the placeholder, are
      joined with no separator (area code "31" and number "999999999" give
      "31999999999"). */
  lemma PhoneOfTrimmed(d: string, t: string)
    requires Trimmed(d) && Trimmed(t) && d != [] && t != [] && !IsNanText(t)
    ensures FormatPhone(Some(d), Some(t)) == d + t
  {
    CleanKeeps(d);
    CleanKeeps(t);
  }

  /** An empty number gives "", whatever the area code. */
  lemma PhoneEmptyNumber(ddd: Cell)
    ensures FormatPhone(ddd, Some("")) == ""
  {
    CleanKeeps("");
  }

  /** A missing number yields no phone, whatever the area code. */
  lemma PhoneMissingNumber(ddd: Cell)
    ensures FormatPhone(ddd, None) == ""
  {
    CleanMissing();
  }

  /** The placeholder test looks at the number only: a missing area code
      reads as "nan" and is kept in front of a present number. */
  lemma PhoneMissingAreaCode(tel: Cell)
    requires Clean(tel) != [] && !IsNanText(Clean(tel))
    ensures FormatPhone(None, tel) == "nan" + Clean(tel)
  {
    CleanMissing();
  }

  /** Digit strings wrapped in quotes, as the registry writes them, lose
      their quotes and are joined with no separator. */
  lemma PhoneOfQuotedDigits(d: string, t: string, q: nat)
    requires d != [] && t != [] && AllDigits(d) && AllDigits(t)
    ensures FormatPhone(Some(Quotes(q) + d + Quotes(q)), Some(Quotes(q) + t + Quotes(q))) == d + t
  {
    QuotedDigitsClean(d, q);
    QuotedDigitsClean(t, q);
    assert LowerChar(t[0]) == t[0];
  }

  lemma QuotedDigitsClean(d: string, q: nat)
    requires d != [] && AllDigits(d)
    ensures Clean(Some(Quotes(q) + d + Quotes(q))) == d
  {
    var s := Quotes(q) + d + Quotes(q);
    assert s[0] == '"' || s[0] == d[0];
    assert s[|s| - 1] == '"' || s[|s| - 1] == d[|d| - 1];
    assert Strip(s) == s;
    StripQuotesOfQuoted(d, q, q);
  }

  /** The complement segment is written only when it is present and is not
      the "nan" placeholder. */
  predicate ShowsComplement(complemento: string)
  {
    complemento != [] && !IsNanText(complemento)
  }

  /** The composition step of `montar_endereco` on cleaned texts:
      "{tipo} {logradouro}, {numero}", then ", {complemento}" when there is
      one, then " - {bairro} - CEP: {cep}". */
  function AddressText(tipo: string, logradouro: string, numero: string,
                       complemento: string, bairro: string, cep: string): string
  {
    var endereco := tipo + " " + logradouro + ", " + numero;
    var endereco' := if complemento != [] && !IsNanText(complemento) then endereco + ", " + complemento else endereco;
    endereco' + " - " + bairro + " - CEP: " + cep
  }

  /** The address starts with "{tipo} {logradouro}, {numero}", ends with
      " - {bairro} - CEP: {cep}", and holds ", {complemento}" in between
      exactly when the complement is shown, nothing otherwise. */
  lemma AddressTextShape(tipo: string, logradouro: string, numero: string,
                         complemento: string, bairro: string, cep: string)
    ensures var r := AddressText(tipo, logradouro, numero, complemento, bairro, cep);
            var head := tipo + " " + logradouro + ", " + numero;
            var tail := " - " + bairro + " - CEP: " + cep;
            && |head| + |tail| <= |r|
            && r[..|head|] == head
            && r[|r| - |tail|..] == tail
            && (ShowsComplement(complemento) <==> |r| > |head| + |tail|)
            && (ShowsComplement(complemento) ==> r[|head|..|r| - |tail|] == ", " + complemento)
  {
  }

  /** `montar_endereco(row)`: each of the six cells is read with `str()`
      and cleaned before composition. */
  function BuildAddress(tipo: Cell, logradouro: Cell, numero: Cell,
                        complemento: Cell, bairro: Cell, cep: Cell): string
  {
    AddressText(Clean(tipo), Clean(logradouro), Clean(numero), Clean(complemento), Clean(bairro), Clean(cep))
  }

  /** Cells that are already trimmed are composed as they are. */
  lemma AddressOfTrimmed(tipo: string, logradouro: string, numero: string,
                         complemento: string, bairro: string, cep: string)
    requires Trimmed(tipo) && Trimmed(logradouro) && Trimmed(numero)
    requires Trimmed(complemento) && Trimmed(bairro) && Trimmed(cep)
    ensures BuildAddress(Some(tipo), Some(logradouro), Some(numero), Some(complemento), Some(bairro), Some(cep))
            == AddressText(tipo, logradouro, numero, complemento, bairro, cep)
  {
    CleanKeeps(tipo);
    CleanKeeps(logradouro);
    CleanKeeps(numero);
    CleanKeeps(complemento);
    CleanKeeps(bairro);
    CleanKeeps(cep);
  }

  /** Type "RUA", street "A", number "10", no complement, district
      "CENTRO", postal code "30000000". */
  lemma AddressExample()
    ensures AddressText("RUA", "A", "10", "", "CENTRO", "30000000") == "RUA A, 10 - CENTRO - CEP: 30000000"
  {
    assert "RUA" + " " + "A" + ", " + "10" == "RUA A, 10";
    assert "RUA A, 10" + " - " == "RUA A, 10 - ";
    assert "RUA A, 10 - " + "CENTRO" == "RUA A, 10 - CENTRO";
    assert "RUA A, 10 - CENTRO" + " - CEP: " == "RUA A, 10 - CENTRO - CEP: ";
    assert "RUA A, 10 - CENTRO - CEP: " + "30000000" == "RUA A, 10 - CENTRO - CEP: 30000000";
  }

  /** The same address with complement "AP 2". */
  lemma AddressWithComplementExample()
    ensures AddressText("RUA", "A", "10", "AP 2", "CENTRO", "30000000") == "RUA A, 10, AP 2 - CENTRO - CEP: 30000000"
  {
    assert "RUA" + " " + "A" + ", " + "10" == "RUA A, 10";
    assert "RUA A, 10" + ", " + "AP 2" == "RUA A, 10, AP 2";
    assert "RUA A, 10, AP 2" + " - " == "RUA A, 10, AP 2 - ";
    assert "RUA A, 10, AP 2 - " + "CENTRO" == "RUA A, 10, AP 2 - CENTRO";
    assert "RUA A, 10, AP 2 - CENTRO" + " - CEP: " == "RUA A, 10, AP 2 - CENTRO - CEP: ";
    assert "RUA A, 10, AP 2 - CENTRO - CEP: " + "30000000" == "RUA A, 10, AP 2 - CENTRO - CEP: 30000000";
  }

  /** A missing complement, read as "nan", is left out; a missing district
      is printed as "nan". */
  lemma AddressMissingCells(tipo: Cell, logradouro: Cell, numero: Cell, cep: Cell)
    ensures BuildAddress(tipo, logradouro, numero, None, None, cep)
            == Clean(tipo) + " " + Clean(logradouro) + ", " + Clean(numero) + " - " + "nan" + " - CEP: " + Clean(cep)
  {
    CleanMissing();
    assert !ShowsComplement("nan");
  }
}
