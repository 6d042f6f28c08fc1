/// Well-known valid identifiers of each kind: which digits are doubled, weighted or permuted,
/// counted from which end, and which character checks them.

module KnownIdentifiers {
  import opened Basics
  import opened Text
  import opened Identifiers

  /// The standard example of the Luhn algorithm.
  lemma {:induction false} KnownLuhn()
    ensures LuhnValid("79927398713")
  {
    var s := "79927398713";
    assert IsDigits(s);
    assert LuhnSum(s, 11) == 0;
    assert LuhnSum(s, 8) == 12;
    assert LuhnSum(s, 4) == 41;
  }

  lemma {:induction false} OneMore36(s: string, k: nat, code: nat, part: nat)
    requires AllAlnum(s) && k < |s| && code == Code(s[k]) && part == Part36(code, k)
    ensures Sum36(s, k + 1) == Sum36(s, k) + part
  {
  }

  lemma {:induction false} FirstSeven(s: string)
    requires |s| == 14 && AllAlnum(s) && s[..7] == "27AAPFU"
    ensures Sum36(s, 7) == 131
  {
    assert s[0] == '2' && s[1] == '7' && s[2] == 'A' && s[3] == 'A' && s[4] == 'P' && s[5] == 'F' && s[6] == 'U' by {
      assert s[..7][0] == s[0] && s[..7][1] == s[1] && s[..7][2] == s[2] && s[..7][3] == s[3];
      assert s[..7][4] == s[4] && s[..7][5] == s[5] && s[..7][6] == s[6];
    }
    OneMore36(s, 0, 2, 2);
    OneMore36(s, 1, 7, 14);
    OneMore36(s, 2, 10, 10);
    OneMore36(s, 3, 10, 20);
    OneMore36(s, 4, 25, 25);
    OneMore36(s, 5, 15, 30);
    OneMore36(s, 6, 30, 30);
  }

  lemma {:induction false} LastSeven(s: string)
    requires |s| == 14 && AllAlnum(s) && s[7..] == "0939F1Z"
    ensures Sum36(s, 14) == Sum36(s, 7) + 90
  {
    assert s[7] == '0' && s[8] == '9' && s[9] == '3' && s[10] == '9' && s[11] == 'F' && s[12] == '1' && s[13] == 'Z' by {
      assert s[7..][0] == s[7] && s[7..][1] == s[8] && s[7..][2] == s[9] && s[7..][3] == s[10];
      assert s[7..][4] == s[11] && s[7..][5] == s[12] && s[7..][6] == s[13];
    }
    OneMore36(s, 7, 0, 0);
    OneMore36(s, 8, 9, 9);
    OneMore36(s, 9, 3, 6);
    OneMore36(s, 10, 9, 9);
    OneMore36(s, 11, 15, 30);
    OneMore36(s, 12, 1, 1);
    OneMore36(s, 13, 35, 35);
  }

  /// A tax number with its check character over letters and digits.
  lemma {:induction false} KnownLuhn36(s: string)
    requires s == "27AAPFU0939F1ZV"
    ensures Luhn36Valid(s)
  {
    var body := s[..14];
    assert body[..7] == "27AAPFU" && body[7..] == "0939F1Z" && s[14] == 'V';
    FirstSeven(body);
    LastSeven(body);
    assert AlnumOf(31) == 'V';
  }

  /// The standard example of an ISBN with ten digits, and one that ends in `X`.
  lemma {:induction false} KnownMod11()
    ensures Mod11Valid("0306406152") && Mod11Valid("080442957X")
  {
    SumOfFirst();
    SumOfSecond();
    assert "0306406152"[..9] == "030640615" && "080442957X"[..9] == "080442957";
    assert Check11(130) == '2' && Check11(199) == 'X';
  }

  lemma {:induction false} SumOfFirst()
    ensures IsDigits("030640615") && Sum11("030640615", 0) == 130
  {
    assert Sum11("030640615", 9) == 0;
    assert Sum11("030640615", 7) == 13;
    assert Sum11("030640615", 5) == 37;
    assert Sum11("030640615", 3) == 103;
  }

  lemma {:induction false} SumOfSecond()
    ensures IsDigits("080442957") && Sum11("080442957", 0) == 199
  {
    assert Sum11("080442957", 9) == 0;
    assert Sum11("080442957", 7) == 29;
    assert Sum11("080442957", 5) == 75;
    assert Sum11("080442957", 3) == 127;
  }

  /// The standard example of the Verhoeff algorithm.
  lemma {:induction false} KnownVerhoeff()
    ensures VerhoeffValid("2363")
  {
    var s := "2363";
    assert Checked(s, 0) == 0;
    assert Checked(s, 2) == Dihedral(Dihedral(0, 3), Permuted(6));
  }
}
