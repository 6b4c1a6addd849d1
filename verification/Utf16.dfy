/** Text as JavaScript and C# hold it: a sequence of UTF-16 code units, surrogates paired or not. */
module Utf16 {

  type Unit = x: int | 0 <= x < 0x1_0000

  type Text = seq<Unit>

  predicate High(c: Unit) { 0xD800 <= c < 0xDC00 }

  predicate Low(c: Unit) { 0xDC00 <= c < 0xE000 }

  lemma Associates(a: Text, b: Text, c: Text)
    ensures a + b + c == a + (b + c)
  {
  }
}
