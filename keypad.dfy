/** The on-screen keypad shared by the PIN screens: its eleven keys, the
    text a key appends to the code, and the letters printed under a digit. */
module Keypad {
  import opened Strings

  /** The erase key's label, U+232B ERASE TO THE LEFT. */
  const BACKSPACE: string := "\U{232B}"

  /** A key is labelled with a number or with a string. */
  datatype Key = Num(n: nat) | Label(text: string)

  /** The keys in grid order: 1 to 9, the erase key, then 0. */
  const KEYS: seq<Key> :=
    [Num(1), Num(2), Num(3), Num(4), Num(5), Num(6), Num(7), Num(8), Num(9), Label(BACKSPACE), Num(0)]

  /** `code + key`: the text the key appends when it is pressed. */
  function KeyText(k: Key): (t: string)
    ensures k.Num? ==> t == NatToString(k.n)
    ensures k.Label? ==> t == k.text
  {
    match k
    case Num(n) => NatToString(n)
    case Label(s) => s
  }

  /** Every key of the grid appends exactly one character, and the digits
      append a decimal digit. */
  lemma KeysAppendOneChar(k: Key)
    requires k in KEYS
    ensures |KeyText(k)| == 1
    ensures k.Num? ==> k.n < 10 && IsDigit(KeyText(k)[0])
  {
  }

  /** The phone-style letters under a digit; 0, 1 and anything else get none. */
  function Letters(n: nat): (r: string)
    ensures n < 2 || n > 9 ==> r == ""
    ensures 2 <= n <= 9 ==> |r| == (if n == 7 || n == 9 then 4 else 3)
    ensures forall i :: 0 <= i < |r| ==> 'A' <= r[i] <= 'Z'
  {
    if n == 2 then "ABC"
    else if n == 3 then "DEF"
    else if n == 4 then "GHI"
    else if n == 5 then "JKL"
    else if n == 6 then "MNO"
    else if n == 7 then "PQRS"
    else if n == 8 then "TUV"
    else if n == 9 then "WXYZ"
    else ""
  }

  /** Read from 2 to 9 the letters spell the alphabet once, in order. */
  lemma LettersSpellAlphabet()
    ensures Letters(2) + Letters(3) + Letters(4) + Letters(5) + Letters(6) + Letters(7) + Letters(8) + Letters(9)
            == "ABCDEFGHIJKLMNOPQRSTUVWXYZ"
  {
  }

  /** `code.slice(0, -1)`: drop the last character, if any. */
  function DropLast(s: string): (r: string)
    ensures |s| == 0 ==> r == s
    ensures |s| > 0 ==> |r| == |s| - 1 && r + [s[|s| - 1]] == s
  {
    if |s| == 0 then s else s[..|s| - 1]
  }
}
