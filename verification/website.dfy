/**
 * The validator of the example website (example/website/methods.go). The
 * source ranges over the runes of the string; every byte of a multi-byte
 * UTF-8 sequence and the replacement rune for a bad byte lie above '9', so
 * "every rune is a digit" and "every byte is a digit" agree, and the model
 * scans bytes.
 */
module Website {

  /** validateNumber: false for "", false at the first byte outside '0'..'9', true otherwise. */
  function ValidateNumber(s: string): (ok: bool)
    ensures ok <==> s != "" && forall i :: 0 <= i < |s| ==> '0' <= s[i] <= '9'
  {
    if s == "" then false else AllDigitsFrom(s, 0)
  }

  /** The loop of validateNumber from index i: it returns false at the first non-digit. */
  function AllDigitsFrom(s: string, i: nat): (ok: bool)
    requires i <= |s|
    ensures ok <==> forall j :: i <= j < |s| ==> '0' <= s[j] <= '9'
    decreases |s| - i
  {
    if i == |s| then true
    else if s[i] < '0' || s[i] > '9' then false
    else AllDigitsFrom(s, i + 1)
  }
}
