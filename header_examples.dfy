/** Worked examples of header canonicalisation on names the training data
    actually uses, and on one it does not recognise. */
module HeaderExamples {
  import opened AsciiText
  import opened Headers

  /** The first letter of every key of the table, and its two entries used below. */
  lemma TableFacts()
    ensures |HeaderCanon| == 16
    ensures HeaderCanon[0].0 == "customer" && HeaderCanon[1].0 == "customerid"
    ensures HeaderCanon[2].0 == "age" && HeaderCanon[3].0 == "gender"
    ensures HeaderCanon[4].0 == "tenure" && HeaderCanon[5].0 == "usage"
    ensures HeaderCanon[6] == ("support", "Support")
    ensures HeaderCanon[7] == ("payment", "PaymentDelay")
    ensures HeaderCanon[8].0[0] == 'p' && HeaderCanon[9].0[0] == 's'
    ensures HeaderCanon[10].0[0] == 'c' && HeaderCanon[11].0[0] == 't'
    ensures HeaderCanon[12].0[0] == 't' && HeaderCanon[13].0[0] == 'l'
    ensures HeaderCanon[14].0[0] == 'l' && HeaderCanon[15].0[0] == 'c'
  {
  }

  /** The key of a name begins with the key of any prefix of the name. */
  lemma KeyStartsWith(raw: string, n: nat, word: string)
    requires n <= |raw| && NormalizeKey(raw[..n]) == word
    ensures word <= NormalizeKey(raw)
  {
    assert raw == raw[..n] + raw[n..];
    NormalizeKeyConcat(raw[..n], raw[n..]);
  }

  /** The key of a name of letters and digits, given its lower-cased form. */
  lemma AlnumKey(name: string, lowered: string)
    requires |name| == |lowered|
    requires forall i :: 0 <= i < |name| ==> IsAlnum(name[i]) && Lower(name[i]) == lowered[i]
    ensures NormalizeKey(name) == lowered
  {
    NormalizeKeyOfAlnum(name);
  }

  /** Every key beginning with "payment" first matches entry 7: entries 0-6
      begin with other letters. */
  lemma PaymentFirst(key: string)
    requires "payment" <= key
    ensures IsFirstMatch(HeaderCanon, key, 7)
  {
    TableFacts();
    assert key[0] == 'p';
  }

  /** Every key beginning with "support" first matches entry 6. */
  lemma SupportFirst(key: string)
    requires "support" <= key
    ensures IsFirstMatch(HeaderCanon, key, 6)
  {
    TableFacts();
    assert key[0] == 's';
  }

  /** No key of the table begins with `r`, so a key that does matches none. */
  lemma InitialRUnmatched(key: string)
    requires |key| > 0 && key[0] == 'r'
    ensures NoMatch(HeaderCanon, key)
  {
    TableFacts();
  }

  lemma PaymentDelayKey(raw: string)
    requires raw == "PaymentDelay"
    ensures NormalizeKey(raw) == "paymentdelay"
  {
    AlnumKey(raw, "paymentdelay");
  }

  /** "PaymentDelay" is renamed through the shorter `payment` entry (7); the
      `paymentdelay` entry (8) never gets the chance. */
  lemma PaymentDelayExample(raw: string)
    requires raw == "PaymentDelay"
    ensures IsFirstMatch(HeaderCanon, NormalizeKey(raw), 7)
    ensures CanonicalName(raw) == "PaymentDelay"
  {
    var key := NormalizeKey(raw);
    assert "payment" <= key by {
      PaymentDelayKey(raw);
    }
    PaymentFirst(key);
    assert CanonicalName(raw) == HeaderCanon[7].1 by {
      RenameMatched(HeaderCanon, raw, 7);
    }
    assert HeaderCanon[7].1 == "PaymentDelay" by {
      TableFacts();
    }
  }

  /** "Support Calls" is renamed through `support` (6), whatever follows the
      first word. */
  lemma SupportCallsExample(raw: string)
    requires raw == "Support Calls"
    ensures IsFirstMatch(HeaderCanon, NormalizeKey(raw), 6)
    ensures CanonicalName(raw) == "Support"
  {
    var key := NormalizeKey(raw);
    assert "support" <= key by {
      AlnumKey(raw[..7], "support");
      KeyStartsWith(raw, 7, "support");
    }
    SupportFirst(key);
    assert CanonicalName(raw) == HeaderCanon[6].1 by {
      RenameMatched(HeaderCanon, raw, 6);
    }
    assert HeaderCanon[6].1 == "Support" by {
      TableFacts();
    }
  }

  /** A name no key prefixes, such as "Region", is kept unchanged. */
  lemma UnmatchedExample(raw: string)
    requires raw == "Region"
    ensures NoMatch(HeaderCanon, NormalizeKey(raw))
    ensures CanonicalName(raw) == "Region"
  {
    var key := NormalizeKey(raw);
    assert "r" <= key by {
      AlnumKey(raw[..1], "r");
      KeyStartsWith(raw, 1, "r");
    }
    InitialRUnmatched(key);
    RenameUnmatched(HeaderCanon, raw);
  }
}
