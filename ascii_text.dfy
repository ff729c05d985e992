/** The ASCII part of Python's `str.lower`, `str.isalnum`, `str.isspace` and
    `str.strip`, and the header key built from them. */
module AsciiText {

  /** `c.isspace()` for an ASCII character: space, \t \n \v \f \r, and the
      separators \x1c-\x1f, which Python also counts as whitespace. */
  predicate IsSpace(c: char)
  {
    c == ' ' || 9 <= c as int <= 13 || 28 <= c as int <= 31
  }

  predicate IsUpper(c: char)
  {
    'A' <= c <= 'Z'
  }

  /** `c.isalnum()` for an ASCII character. */
  predicate IsAlnum(c: char)
  {
    'a' <= c <= 'z' || 'A' <= c <= 'Z' || '0' <= c <= '9'
  }

  /** A character a normalised header key may contain. */
  predicate IsKeyChar(c: char)
  {
    'a' <= c <= 'z' || '0' <= c <= '9'
  }

  predicate AllSpace(s: string)
  {
    forall i :: 0 <= i < |s| ==> IsSpace(s[i])
  }

  /** Nothing to strip: empty, or neither end is whitespace. */
  predicate IsStripped(s: string)
  {
    s == [] || (!IsSpace(s[0]) && !IsSpace(s[|s| - 1]))
  }

  /** `c.lower()` for an ASCII character. */
  function Lower(c: char): (r: char)
    ensures IsUpper(c) ==> r as int == c as int + 32
    ensures !IsUpper(c) ==> r == c
    ensures IsAlnum(r) == IsAlnum(c) && IsSpace(r) == IsSpace(c)
    ensures IsAlnum(c) ==> IsKeyChar(r)
  {
    if IsUpper(c) then (c as int + 32) as char else c
  }

  /** `s.lower()`. */
  function LowerAll(s: string): (r: string)
    ensures |r| == |s|
    ensures forall i :: 0 <= i < |s| ==> r[i] == Lower(s[i])
  {
    if |s| == 0 then [] else [Lower(s[0])] + LowerAll(s[1..])
  }

  /** `"".join(ch for ch in s if ch.isalnum())`. */
  function KeepAlnum(s: string): (r: string)
    ensures |r| <= |s|
    ensures forall i :: 0 <= i < |r| ==> IsAlnum(r[i]) && r[i] in s
  {
    if |s| == 0 then []
    else (if IsAlnum(s[0]) then [s[0]] else []) + KeepAlnum(s[1..])
  }

  /** The header key of a column name: lower-cased, then only its letters and digits. */
  function NormalizeKey(name: string): (key: string)
    ensures |key| <= |name|
    ensures forall i :: 0 <= i < |key| ==> IsKeyChar(key[i])
  {
    var lowered := LowerAll(name);
    assert forall c :: c in lowered ==> !IsUpper(c);
    KeepAlnum(lowered)
  }

  lemma {:induction false} LowerAllConcat(a: string, b: string)
    ensures LowerAll(a + b) == LowerAll(a) + LowerAll(b)
  {
    if |a| > 0 {
      assert (a + b)[1..] == a[1..] + b;
      LowerAllConcat(a[1..], b);
    } else {
      assert a + b == b;
    }
  }

  lemma {:induction false} KeepAlnumConcat(a: string, b: string)
    ensures KeepAlnum(a + b) == KeepAlnum(a) + KeepAlnum(b)
  {
    if |a| > 0 {
      assert (a + b)[1..] == a[1..] + b;
      KeepAlnumConcat(a[1..], b);
    } else {
      assert a + b == b;
    }
  }

  /** Lower-casing and dropping punctuation commute, so the key is also the
      lower-cased string of the name's letters and digits. */
  lemma {:induction false} NormalizeKeyFilterFirst(name: string)
    ensures NormalizeKey(name) == LowerAll(KeepAlnum(name))
  {
    if |name| > 0 {
      NormalizeKeyFilterFirst(name[1..]);
      var head := if IsAlnum(name[0]) then [name[0]] else [];
      LowerAllConcat(head, KeepAlnum(name[1..]));
    }
  }

  /** A string already made of key characters is its own key. */
  lemma {:induction false} NormalizeKeyOfKey(key: string)
    requires forall i :: 0 <= i < |key| ==> IsKeyChar(key[i])
    ensures NormalizeKey(key) == key
  {
    if |key| > 0 {
      NormalizeKeyOfKey(key[1..]);
    }
  }

  /** A name made only of letters and digits has its lower-cased self as key. */
  lemma {:induction false} NormalizeKeyOfAlnum(name: string)
    requires forall i :: 0 <= i < |name| ==> IsAlnum(name[i])
    ensures NormalizeKey(name) == LowerAll(name)
  {
    if |name| > 0 {
      NormalizeKeyOfAlnum(name[1..]);
    }
  }

  /** The key of a concatenation is the concatenation of the keys. */
  lemma NormalizeKeyConcat(a: string, b: string)
    ensures NormalizeKey(a + b) == NormalizeKey(a) + NormalizeKey(b)
  {
    LowerAllConcat(a, b);
    KeepAlnumConcat(LowerAll(a), LowerAll(b));
  }

  /** Normalising a key again changes nothing. */
  lemma NormalizeKeyIdempotent(name: string)
    ensures NormalizeKey(NormalizeKey(name)) == NormalizeKey(name)
  {
    NormalizeKeyOfKey(NormalizeKey(name));
  }

  /** Leading whitespace removed (`s.lstrip()`). */
  function TrimStart(s: string): (r: string)
    ensures r == [] || !IsSpace(r[0])
    ensures |r| <= |s| && r == s[|s| - |r|..]
  {
    if |s| > 0 && IsSpace(s[0]) then TrimStart(s[1..]) else s
  }

  /** Trailing whitespace removed (`s.rstrip()`). */
  function TrimEnd(s: string): (r: string)
    ensures r == [] || !IsSpace(r[|r| - 1])
    ensures |r| <= |s| && r == s[..|r|]
  {
    if |s| > 0 && IsSpace(s[|s| - 1]) then TrimEnd(s[..|s| - 1]) else s
  }

  /** `s.strip()`. */
  function Strip(s: string): (r: string)
    ensures IsStripped(r)
    ensures |r| <= |s|
  {
    TrimEnd(TrimStart(s))
  }

  lemma {:induction false} TrimStartPadded(pad: string, s: string)
    requires AllSpace(pad)
    requires s == [] || !IsSpace(s[0])
    ensures TrimStart(pad + s) == s
  {
    if |pad| > 0 {
      assert (pad + s)[1..] == pad[1..] + s;
      TrimStartPadded(pad[1..], s);
    }
  }

  lemma {:induction false} TrimEndPadded(s: string, pad: string)
    requires AllSpace(pad)
    requires s == [] || !IsSpace(s[|s| - 1])
    ensures TrimEnd(s + pad) == s
  {
    if |pad| > 0 {
      assert (s + pad)[..|s + pad| - 1] == s + pad[..|pad| - 1];
      TrimEndPadded(s, pad[..|pad| - 1]);
    }
  }

  /** Stripping removes exactly the surrounding whitespace: a stripped core
      with whitespace on both sides strips back to the core. Together with
      `Strip`'s own contract this determines `Strip` completely. */
  lemma StripPadded(left: string, core: string, right: string)
    requires AllSpace(left) && AllSpace(right) && IsStripped(core)
    ensures Strip(left + core + right) == core
  {
    if core == [] {
      assert left + core + right == left + right;
      TrimStartPadded(left + right, []);
      assert left + right + [] == left + right;
    } else {
      assert left + core + right == left + (core + right);
      TrimStartPadded(left, core + right);
      TrimEndPadded(core, right);
    }
  }

  /** Lower-casing keeps a string stripped, and keeps it whitespace-only. */
  lemma LowerKeepsSpacing(s: string)
    ensures IsStripped(LowerAll(s)) == IsStripped(s)
    ensures AllSpace(LowerAll(s)) == AllSpace(s)
  {
    if !AllSpace(s) {
      var i :| 0 <= i < |s| && !IsSpace(s[i]);
      assert !IsSpace(LowerAll(s)[i]);
    }
  }

  /** Lower-casing twice is lower-casing once. */
  lemma {:induction false} LowerAllIdempotent(s: string)
    ensures LowerAll(LowerAll(s)) == LowerAll(s)
  {
    if |s| > 0 {
      LowerAllIdempotent(s[1..]);
    }
  }

  lemma {:induction false} TrimStartLower(s: string)
    ensures TrimStart(LowerAll(s)) == LowerAll(TrimStart(s))
  {
    if |s| > 0 && IsSpace(s[0]) {
      TrimStartLower(s[1..]);
    }
  }

  lemma {:induction false} TrimEndLower(s: string)
    ensures TrimEnd(LowerAll(s)) == LowerAll(TrimEnd(s))
  {
    if |s| > 0 {
      var init := s[..|s| - 1];
      assert s == init + [s[|s| - 1]];
      LowerAllConcat(init, [s[|s| - 1]]);
      assert LowerAll(s)[..|s| - 1] == LowerAll(init);
      if IsSpace(s[|s| - 1]) {
        TrimEndLower(init);
      }
    }
  }

  /** Stripping and lower-casing commute. */
  lemma StripLowerCommute(s: string)
    ensures Strip(LowerAll(s)) == LowerAll(Strip(s))
  {
    TrimStartLower(s);
    TrimEndLower(TrimStart(s));
  }

  /** A string with nothing to strip is its own `strip()`. */
  lemma StripOfStripped(s: string)
    requires IsStripped(s)
    ensures Strip(s) == s
  {
    StripPadded([], s, []);
    assert [] + s + [] == s;
  }

  /** A string without capitals is its own `lower()`. */
  lemma {:induction false} LowerAllOfLower(s: string)
    requires forall i :: 0 <= i < |s| ==> !IsUpper(s[i])
    ensures LowerAll(s) == s
  {
    if |s| > 0 {
      LowerAllOfLower(s[1..]);
    }
  }
}
