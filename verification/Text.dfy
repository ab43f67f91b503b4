/** Blanks as `strings.TrimSpace` knows them. */
module Text {

  predicate IsSpace(c: char) {
    || c in {' ', '\t', '\n', '\r'} || c == 0x0B as char || c == 0x0C as char || c == 0x85 as char || c == 0xA0 as char
    || c == 0x1680 as char || 0x2000 as char <= c <= 0x200A as char || c == 0x2028 as char || c == 0x2029 as char
    || c == 0x202F as char || c == 0x205F as char || c == 0x3000 as char
  }

  /** These are the characters that Unicode calls white space. */
  lemma SpacesExactly(c: char)
    ensures IsSpace(c) <==>
      (c as int) in {0x09, 0x0A, 0x0B, 0x0C, 0x0D, 0x20, 0x85, 0xA0, 0x1680,
                     0x2000, 0x2001, 0x2002, 0x2003, 0x2004, 0x2005, 0x2006, 0x2007, 0x2008, 0x2009, 0x200A,
                     0x2028, 0x2029, 0x202F, 0x205F, 0x3000}
  {
  }

  function TrimLeft(s: string): (r: string)
    ensures r != "" ==> !IsSpace(r[0])
  {
    if s != "" && IsSpace(s[0]) then TrimLeft(s[1..]) else s
  }

  function TrimRight(s: string): (r: string)
    ensures r <= s
    ensures r != "" ==> !IsSpace(r[|r| - 1])
  {
    if s != "" && IsSpace(s[|s| - 1]) then TrimRight(s[..|s| - 1]) else s
  }

  function TrimSpace(s: string): (r: string)
    ensures r != "" ==> !IsSpace(r[0]) && !IsSpace(r[|r| - 1])
  {
    TrimRight(TrimLeft(s))
  }

  predicate Blank(s: string) {
    forall c <- s :: IsSpace(c)
  }

  /** `text` is `raw` between its leading and its trailing blanks. */
  predicate Stripped(raw: string, text: string) {
    && text != "" && !IsSpace(text[0]) && !IsSpace(text[|text| - 1])
    && exists i | 0 <= i <= |raw| - |text| ::
         raw[i..i + |text|] == text && Blank(raw[..i]) && Blank(raw[i + |text|..])
  }

  lemma {:induction false} TrimLeftTakesBlanks(s: string)
    ensures |TrimLeft(s)| <= |s|
    ensures var n := |s| - |TrimLeft(s)|; s[n..] == TrimLeft(s) && Blank(s[..n])
  {
    if s != "" && IsSpace(s[0]) {
      TrimLeftTakesBlanks(s[1..]);
      var n := |s| - |TrimLeft(s)|;
      assert s[..n] == [s[0]] + s[1..][..n - 1];
    }
  }

  lemma {:induction false} TrimRightTakesBlanks(s: string)
    ensures Blank(s[|TrimRight(s)|..])
  {
    if s != "" && IsSpace(s[|s| - 1]) {
      var shorter := s[..|s| - 1];
      TrimRightTakesBlanks(shorter);
      assert s[|TrimRight(s)|..] == shorter[|TrimRight(s)|..] + [s[|s| - 1]];
    }
  }

  lemma TrimOne(c: char)
    ensures TrimLeft([c]) == TrimRight([c]) == if IsSpace(c) then "" else [c]
  {
    hide IsSpace;
    assert [c][1..] == "" && [c][..0] == "";
    assert TrimLeft("") == "" && TrimRight("") == "";
  }

  /** Of two characters those remain that are not blank. */
  lemma TrimTwo(x: char, y: char)
    ensures TrimSpace([x, y]) == (if IsSpace(x) then "" else [x]) + (if IsSpace(y) then "" else [y])
  {
    hide IsSpace;
    TrimOne(x);
    TrimOne(y);
    assert [x, y][1..] == [y] && [x, y][..1] == [x];
    assert TrimLeft([x, y]) == if IsSpace(x) then TrimLeft([y]) else [x, y];
    assert TrimRight([x, y]) == if IsSpace(y) then TrimRight([x]) else [x, y];
    assert TrimRight("") == "";
  }

  /** Trimming takes all blanks at either end and nothing else. */
  lemma TrimIsExact(s: string)
    ensures TrimSpace(s) == "" <==> Blank(s)
    ensures !Blank(s) ==> Stripped(s, TrimSpace(s))
  {
    hide IsSpace;
    var left, text := TrimLeft(s), TrimSpace(s);
    var n := |s| - |left|;
    TrimLeftTakesBlanks(s);
    TrimRightTakesBlanks(left);
    assert s[n..n + |text|] == text;
    assert s[n + |text|..] == left[|text|..];
    if text == "" {
      assert s == s[..n] + s[n..];
    } else {
      assert s[n] == text[0];
      assert Stripped(s, text);
    }
  }
}
