/** The input masks and the address lookup of `src/lib/cep.ts`. */
module Cep {
  import opened Wrappers
  import opened Text

  /** The JSON body of the ViaCEP lookup service; `erro` absent reads as false. */
  datatype ViaCepResponse = ViaCepResponse(
    cep: string, logradouro: string, complemento: string,
    bairro: string, localidade: string, uf: string, erro: bool)

  datatype AddressData = AddressData(
    cep: string, street: string, neighborhood: string, city: string, state: string)

  /** `formatCEP`: mask a postal code as `NNNNN-NNN`. */
  function FormatCEP(value: string): (r: string)
    ensures |r| <= 9
    ensures |Digits(value)| <= 5 ==> r == Digits(value)
    ensures |Digits(value)| > 5 ==> |r| == Min(8, |Digits(value)|) + 1 && r[5] == '-'
  {
    var numbers := Digits(value);
    if |numbers| <= 5 then numbers
    else numbers[..5] + "-" + numbers[5..Min(8, |numbers|)]
  }

  /** The digits a formatted postal code keeps are the first eight of the input. */
  lemma CepKeepsLeadingDigits(value: string)
    ensures Digits(FormatCEP(value)) == Digits(value)[..Min(8, |Digits(value)|)]
  {
    var n := Digits(value);
    if |n| <= 5 {
      DigitsOfDigits(n);
      assert n[..|n|] == n;
    } else {
      var k := Min(8, |n|);
      DigitsConcat(n[..5] + "-", n[5..k]);
      DigitsConcat(n[..5], "-");
      DigitsOfDigits(n[..5]);
      DigitsOfDigits(n[5..k]);
      assert n[..5] + n[5..k] == n[..k];
    }
  }

  /** Masking a masked postal code changes nothing. */
  lemma CepIdempotent(value: string)
    ensures FormatCEP(FormatCEP(value)) == FormatCEP(value)
  {
    var n := Digits(value);
    CepKeepsLeadingDigits(value);
    var m := n[..Min(8, |n|)];
    assert Digits(FormatCEP(value)) == m;
    if |n| > 5 {
      assert m[..5] == n[..5];
      assert m[5..Min(8, |m|)] == n[5..Min(8, |n|)];
    }
  }

  lemma CepFullExample()
    ensures FormatCEP("01310930") == "01310-930"
  {
    var n := "01310930";
    assert AllDigits(n);
    DigitsOfDigits(n);
    assert n[..5] == "01310" && n[5..8] == "930";
  }

  lemma CepShortExample()
    ensures FormatCEP("013") == "013"
  {
    var n := "013";
    assert AllDigits(n);
    DigitsOfDigits(n);
  }

  /** `formatPhone`: mask a phone number as `(DD) NNNNN-NNNN`. */
  function FormatPhone(value: string): (r: string)
    ensures |r| <= 15
    ensures |Digits(value)| <= 2 ==> r == Digits(value)
    ensures 2 < |Digits(value)| <= 7 ==> r == "(" + Digits(value)[..2] + ") " + Digits(value)[2..]
  {
    var numbers := Digits(value);
    if |numbers| <= 2 then numbers
    else if |numbers| <= 7 then "(" + numbers[..2] + ") " + numbers[2..]
    else "(" + numbers[..2] + ") " + numbers[2..7] + "-" + numbers[7..Min(11, |numbers|)]
  }

  /** Punctuation inserted by a mask contributes no digits. */
  lemma DigitsSkipSeparator(a: string, sep: string, b: string)
    requires Digits(sep) == []
    ensures Digits(a + sep + b) == Digits(a) + Digits(b)
  {
    DigitsConcat(a + sep, b);
    DigitsConcat(a, sep);
  }

  /** The digits of `(DD) rest` are `DD` followed by those of `rest`. */
  lemma AreaCodeDigits(area: string, rest: string)
    requires AllDigits(area)
    ensures Digits("(" + area + ") " + rest) == area + Digits(rest)
  {
    var open, close := "(", ") ";
    NoDigits(open);
    NoDigits(close);
    DigitsOfDigits(area);
    DigitsConcat(open + area + close, rest);
    DigitsConcat(open + area, close);
    DigitsConcat(open, area);
  }

  /** The digits of `(DD) NNNNN-NNNN` are the eleven digits, in order. */
  lemma FullMaskDigits(n: string, k: nat)
    requires AllDigits(n) && 7 < k <= |n|
    ensures Digits("(" + n[..2] + ") " + n[2..7] + "-" + n[7..k]) == n[..k]
  {
    var dash := "-";
    NoDigits(dash);
    DigitsSkipSeparator(n[2..7], dash, n[7..k]);
    DigitsOfDigits(n[2..7]);
    DigitsOfDigits(n[7..k]);
    AreaCodeDigits(n[..2], n[2..7] + dash + n[7..k]);
    assert "(" + n[..2] + ") " + (n[2..7] + dash + n[7..k])
        == "(" + n[..2] + ") " + n[2..7] + dash + n[7..k];
    assert n[..2] + (n[2..7] + n[7..k]) == n[..k];
  }

  /** The digits a formatted phone number keeps are the first eleven of the input. */
  lemma PhoneKeepsLeadingDigits(value: string)
    ensures Digits(FormatPhone(value)) == Digits(value)[..Min(11, |Digits(value)|)]
  {
    var n := Digits(value);
    if |n| <= 2 {
      DigitsOfDigits(n);
      assert n[..|n|] == n;
    } else if |n| <= 7 {
      AreaCodeDigits(n[..2], n[2..]);
      DigitsOfDigits(n[2..]);
      assert n[..2] + n[2..] == n == n[..|n|];
    } else {
      FullMaskDigits(n, Min(11, |n|));
    }
  }

  /** Masking a masked phone number changes nothing. */
  lemma PhoneIdempotent(value: string)
    ensures FormatPhone(FormatPhone(value)) == FormatPhone(value)
  {
    var n := Digits(value);
    PhoneKeepsLeadingDigits(value);
    var m := n[..Min(11, |n|)];
    assert Digits(FormatPhone(value)) == m;
    if |n| > 7 {
      assert m[..2] == n[..2] && m[2..7] == n[2..7];
      assert m[7..Min(11, |m|)] == n[7..Min(11, |n|)];
    } else if |n| > 2 {
      assert m[..2] == n[..2] && m[2..] == n[2..];
    }
  }

  /** On a string of 8 to 11 digits the mask only inserts punctuation. */
  lemma PhoneOfDigitString(n: string)
    requires AllDigits(n) && 8 <= |n| <= 11
    ensures FormatPhone(n) == "(" + n[..2] + ") " + n[2..7] + "-" + n[7..]
  {
    DigitsOfDigits(n);
  }

  /** Whatever the input (typed separators, a masked number with one more
      key, more than eleven digits), the mask is that of its first eleven
      digits. */
  lemma PhoneOfTruncatedDigits(value: string)
    ensures FormatPhone(value) == FormatPhone(Digits(value)[..Min(11, |Digits(value)|)])
  {
    var n := Digits(value);
    var m := n[..Min(11, |n|)];
    assert AllDigits(m) by {
      forall i | 0 <= i < |m| ensures IsDigit(m[i]) {
        assert m[i] == n[i];
      }
    }
    DigitsOfDigits(m);
    if |n| > 7 {
      assert m[..2] == n[..2] && m[2..7] == n[2..7];
      assert m[7..Min(11, |m|)] == n[7..Min(11, |n|)];
    } else if |n| > 2 {
      assert m[..2] == n[..2] && m[2..] == n[2..];
    }
  }

  /** With eight or more digits the result is `(DD) NNNNN-NNNN`, cut after the
      eleventh digit, for any input. */
  lemma PhoneFullShape(value: string)
    requires |Digits(value)| >= 8
    ensures var m := Digits(value)[..Min(11, |Digits(value)|)];
      FormatPhone(value) == "(" + m[..2] + ") " + m[2..7] + "-" + m[7..]
  {
    var n := Digits(value);
    var m := n[..Min(11, |n|)];
    PhoneOfTruncatedDigits(value);
    assert AllDigits(m) by {
      forall i | 0 <= i < |m| ensures IsDigit(m[i]) {
        assert m[i] == n[i];
      }
    }
    PhoneOfDigitString(m);
  }

  /** A full number given as area code, first part and last part. */
  lemma PhoneOfParts(area: string, first: string, last: string)
    requires AllDigits(area) && AllDigits(first) && AllDigits(last)
    requires |area| == 2 && |first| == 5 && 1 <= |last| <= 4
    ensures FormatPhone(area + first + last) == "(" + area + ") " + first + "-" + last
  {
    var n := area + first + last;
    PhoneOfDigitString(n);
    assert n[..2] == area && n[2..7] == first && n[7..] == last;
  }

  lemma PhoneFullExample()
    ensures FormatPhone("11987654321") == "(11) 98765-4321"
  {
    var area, first, last := "11", "98765", "4321";
    PhoneOfParts(area, first, last);
    assert area + first + last == "11987654321";
    assert "(" + area + ") " + first + "-" + last == "(11) 98765-4321";
  }

  /** The digits of a masked "(DD) rest" whose parts are digits. */
  lemma DigitsOfMasked(area: string, rest: string)
    requires AllDigits(area) && AllDigits(rest)
    ensures Digits("(" + area + ") " + rest) == area + rest
  {
    AreaCodeDigits(area, rest);
    DigitsOfDigits(rest);
  }

  /** A number already masked as "(DD) NNNNN" with more digits typed after
      it is masked afresh as "(DD) NNNNN-rest". */
  lemma PhoneOfMaskedParts(area: string, first: string, last: string)
    requires AllDigits(area) && AllDigits(first) && AllDigits(last)
    requires |area| == 2 && |first| == 5 && 1 <= |last| <= 4
    ensures FormatPhone("(" + area + ") " + first + last) == "(" + area + ") " + first + "-" + last
  {
    var rest := first + last;
    assert AllDigits(rest) by {
      forall i | 0 <= i < |rest| ensures IsDigit(rest[i]) {
        if i >= |first| { assert rest[i] == last[i - |first|]; }
      }
    }
    DigitsOfMasked(area, rest);
    var n := area + rest;
    assert "(" + area + ") " + first + last == "(" + area + ") " + rest;
    assert n[..2] == area && n[2..7] == first && n[7..Min(11, |n|)] == last;
  }

  /** The box holds "(11) 98765" and the eighth digit is typed. */
  lemma PhoneMaskedExample()
    ensures FormatPhone("(11) 987654") == "(11) 98765-4"
  {
    var area, first, last := "11", "98765", "4";
    PhoneOfMaskedParts(area, first, last);
    assert "(" + area + ") " + first + last == "(11) 987654";
    assert "(" + area + ") " + first + "-" + last == "(11) 98765-4";
  }

  lemma PhonePartialExample()
    ensures FormatPhone("1198") == "(11) 98"
  {
    var n := "1198";
    assert AllDigits(n);
    DigitsOfDigits(n);
    assert n[..2] == "11" && n[2..] == "98";
  }

  /** The URL `fetchAddressByCEP` requests, or None when it returns early
      without a request because the cleaned code does not have 8 digits. */
  function LookupUrl(cep: string): (r: Option<string>)
    ensures r.Some? <==> |Digits(cep)| == 8
  {
    var cleanCEP := Digits(cep);
    if |cleanCEP| != 8 then None
    else Some("https://viacep.com.br/ws/" + cleanCEP + "/json/")
  }

  /** `fetchAddressByCEP`. The network is the parameter `fetch`, which maps the
      requested URL to the decoded response, or to None when the request or the
      JSON decoding throws (the source catches both and returns null). */
  function FetchAddressByCEP(cep: string, fetch: string -> Option<ViaCepResponse>): (r: Option<AddressData>)
    ensures |Digits(cep)| != 8 ==> r == None
    ensures r.Some? ==>
      && LookupUrl(cep).Some?
      && fetch(LookupUrl(cep).value).Some?
      && !fetch(LookupUrl(cep).value).value.erro
  {
    match LookupUrl(cep)
    case None => None
    case Some(url) =>
      match fetch(url)
      case None => None
      case Some(data) =>
        if data.erro then None
        else Some(AddressData(data.cep, data.logradouro, data.bairro, data.localidade, data.uf))
  }

  /** A well-formed response maps field by field: logradouro to street, bairro
      to neighborhood, localidade to city and uf to state; one carrying `erro`
      maps to null. */
  lemma FetchMapsResponse(cep: string, fetch: string -> Option<ViaCepResponse>, data: ViaCepResponse)
    requires |Digits(cep)| == 8
    requires fetch("https://viacep.com.br/ws/" + Digits(cep) + "/json/") == Some(data)
    ensures data.erro ==> FetchAddressByCEP(cep, fetch) == None
    ensures !data.erro ==>
      FetchAddressByCEP(cep, fetch) == Some(AddressData(data.cep, data.logradouro, data.bairro, data.localidade, data.uf))
  {
  }

  /** Without 8 digits no request is made: the result does not depend on the network. */
  lemma NoRequestWithoutEightDigits(cep: string, f: string -> Option<ViaCepResponse>, g: string -> Option<ViaCepResponse>)
    requires |Digits(cep)| != 8
    ensures FetchAddressByCEP(cep, f) == FetchAddressByCEP(cep, g) == None
  {
  }
}
