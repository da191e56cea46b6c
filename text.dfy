/** The string handling the provider relies on: Python's `str.split(sep, 1)`
    and `str.split(sep)[0]`, `str.removeprefix`, and the first-name
    derivation used to address notification emails. */
module Text {
  import opened AuthTypes

  /** `s.split(sep)[0]`: the longest prefix of `s` free of `sep`. */
  function PrefixBefore(s: string, sep: char): (r: string)
    ensures r <= s
    ensures sep !in r
    ensures |r| < |s| ==> s[|r|] == sep
  {
    if s == [] || s[0] == sep then [] else [s[0]] + PrefixBefore(s[1..], sep)
  }

  /** `s.split(sep, 1)` unpacked into two names: absent when `s` has no `sep`
      (Python raises `ValueError`), otherwise the parts around the FIRST `sep`;
      the second part may itself contain `sep`. */
  function SplitOnce(s: string, sep: char): (r: Option<(string, string)>)
    ensures r.None? <==> sep !in s
    ensures r.Some? ==> s == r.value.0 + [sep] + r.value.1 && sep !in r.value.0
  {
    var head := PrefixBefore(s, sep);
    if |head| == |s| then None else Some((head, s[|head| + 1..]))
  }

  /** Joining a `sep`-free head to any tail and splitting again gives back
      exactly the two parts. */
  lemma {:induction false} SplitOnceJoin(head: string, sep: char, tail: string)
    requires sep !in head
    ensures SplitOnce(head + [sep] + tail, sep) == Some((head, tail))
  {
    var s := head + [sep] + tail;
    assert s[|head|] == sep;
    assert sep in s;
    var r := SplitOnce(s, sep);
    assert r.value.0 == s[..|head|] == head;
    assert r.value.1 == s[|head| + 1..] == tail;
  }

  /** `s.removeprefix(prefix)`. */
  function RemovePrefix(s: string, prefix: string): (r: string)
    ensures prefix <= s ==> prefix + r == s
    ensures !(prefix <= s) ==> r == s
  {
    if prefix <= s then s[|prefix|..] else s
  }

  /** The name a notification greets: the first space-separated word of a
      non-empty display name, otherwise the local part of the email. */
  function FirstName(name: Option<string>, email: string): (r: string)
    ensures name.Some? && name.value != "" ==>
              r <= name.value && ' ' !in r && (|r| < |name.value| ==> name.value[|r|] == ' ')
    ensures !(name.Some? && name.value != "") ==>
              r <= email && '@' !in r && (|r| < |email| ==> email[|r|] == '@')
  {
    if name.Some? && name.value != "" then PrefixBefore(name.value, ' ')
    else PrefixBefore(email, '@')
  }
}
