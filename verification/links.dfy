/**
 * Small string rules of backend/app.py: which upload names are accepted as images
 * (`allowed_file`), how a contact becomes a WhatsApp number, and which video id a
 * course link embeds. URL parsing itself is library code: a link arrives here already
 * split into host, path and query parameters.
 */
module Links {
  import opened Wrappers
  import opened Text

  // ---------------------------------------------------------------------------
  // allowed_file
  // ---------------------------------------------------------------------------

  const AllowedExtensions: set<string> := {"png", "jpg", "jpeg", "gif"}

  /** Position `i` holds a '.' and no '.' comes after it. */
  predicate IsLastDot(s: string, i: int) {
    0 <= i < |s| && s[i] == '.' && forall j :: i < j < |s| ==> s[j] != '.'
  }

  /** Position of the last '.' in `s`, if any. */
  function LastDot(s: string): (r: Option<nat>)
    ensures r.None? <==> '.' !in s
    ensures r.Some? ==> IsLastDot(s, r.value)
    decreases |s|
  {
    if s == [] then None
    else if s[|s| - 1] == '.' then Some(|s| - 1)
    else
      var r := LastDot(s[..|s| - 1]);
      assert forall j :: 0 <= j < |s| - 1 ==> s[..|s| - 1][j] == s[j];
      r
  }

  /** The text after the last '.', lower-cased, is one of the image extensions. */
  function AllowedFile(filename: string): (ok: bool)
    ensures ok ==> '.' in filename
  {
    var d := LastDot(filename);
    d.Some? && Lower(filename[d.value + 1..]) in AllowedExtensions
  }

  /** Only one position can be a '.' with no '.' after it. */
  lemma LastDotUnique(s: string, i: int)
    requires IsLastDot(s, i)
    ensures LastDot(s) == Some(i)
  {
    var d := LastDot(s);
    assert s[i] in s;
  }

  /** A test on the text after the last '.' holds iff some '.' with no '.' after it is followed by passing text. */
  lemma AfterLastDot(s: string, p: string -> bool)
    ensures (LastDot(s).Some? && p(s[LastDot(s).value + 1..])) <==> exists i :: IsLastDot(s, i) && p(s[i + 1..])
  {
    if exists i :: IsLastDot(s, i) && p(s[i + 1..]) {
      var i :| IsLastDot(s, i) && p(s[i + 1..]);
      LastDotUnique(s, i);
    }
  }

  /** `allowed_file` holds iff the name has a '.' and what follows the last one, lower-cased,
      is png, jpg, jpeg or gif. */
  lemma AllowedFileIff(filename: string)
    ensures AllowedFile(filename) <==>
      exists i :: IsLastDot(filename, i) && Lower(filename[i + 1..]) in AllowedExtensions
  {
    AfterLastDot(filename, e => Lower(e) in AllowedExtensions);
  }

  /** Case does not matter and only the last extension counts. */
  lemma AllowedFileExamples()
    ensures AllowedFile("a.PNG")
    ensures !AllowedFile("a.png.x")
    ensures !AllowedFile("png")
  {
    LastDotUnique("a.PNG", 1);
    assert "a.PNG"[2..] == "PNG";
    assert Lower("PNG") == "png";
    LastDotUnique("a.png.x", 5);
    assert "a.png.x"[6..] == "x";
  }

  // ---------------------------------------------------------------------------
  // WhatsApp number normalisation
  // ---------------------------------------------------------------------------

  predicate IsDigit(c: char) { '0' <= c <= '9' }

  /** The digits of `s`, in order (the `filter(str.isdigit, ...)` join). */
  function Digits(s: string): (r: string)
    ensures |r| <= |s|
    ensures forall i :: 0 <= i < |r| ==> IsDigit(r[i])
  {
    if s == [] then []
    else if IsDigit(s[0]) then [s[0]] + Digits(s[1..])
    else Digits(s[1..])
  }

  /** Filtering a concatenation filters each part: no digit is lost, added or reordered. */
  lemma {:induction false} DigitsAppend(a: string, b: string)
    ensures Digits(a + b) == Digits(a) + Digits(b)
  {
    if a == [] {
      assert a + b == b;
    } else {
      assert (a + b)[1..] == a[1..] + b;
      DigitsAppend(a[1..], b);
    }
  }

  /** One character is kept exactly when it is a digit. */
  lemma DigitsOne(c: char)
    ensures Digits([c]) == if IsDigit(c) then [c] else []
  {
    assert [c][1..] == [];
  }

  /** A string made only of digits is its own digit string. */
  lemma {:induction false} DigitsOfDigits(s: string)
    requires forall i :: 0 <= i < |s| ==> IsDigit(s[i])
    ensures Digits(s) == s
  {
    if s != [] {
      DigitsOfDigits(s[1..]);
      assert s == [s[0]] + s[1..];
    }
  }

  const CountryCode: string := "55"

  /** Keep only the digits, then prefix the country code 55 unless it already starts with it. */
  function WhatsAppNumber(contato: string): (r: string)
    ensures IsPrefix(CountryCode, r)
    ensures forall i :: 0 <= i < |r| ==> IsDigit(r[i])
  {
    var d := Digits(contato);
    if IsPrefix(CountryCode, d) then d else CountryCode + d
  }

  /** The number keeps every digit of the contact, in order, after at most an added "55". */
  lemma WhatsAppKeepsDigits(contato: string)
    ensures WhatsAppNumber(contato) == Digits(contato) || WhatsAppNumber(contato) == CountryCode + Digits(contato)
    ensures IsPrefix(CountryCode, Digits(contato)) <==> WhatsAppNumber(contato) == Digits(contato)
  {
  }

  /** Normalising a normalised number changes nothing. */
  lemma WhatsAppIdempotent(contato: string)
    ensures WhatsAppNumber(WhatsAppNumber(contato)) == WhatsAppNumber(contato)
  {
    DigitsOfDigits(WhatsAppNumber(contato));
  }

  /** A local number gets the code; one that already starts with 55 does not get it twice. */
  lemma WhatsAppExamples()
    ensures WhatsAppNumber("(83)") == "5583"
    ensures WhatsAppNumber("+55") == "55"
  {
    assert Digits("(83)") == "83" by {
      assert "(83)"[1..] == "83)";
      assert "83)"[1..] == "3)";
      assert "3)"[1..] == ")";
    }
    assert Digits("+55") == "55" by {
      assert "+55"[1..] == "55";
      assert "55"[1..] == "5";
    }
  }

  // ---------------------------------------------------------------------------
  // YouTube embed link
  // ---------------------------------------------------------------------------

  /** What `urlparse`/`parse_qs` give back: the host (absent for a relative link), the path, the query. */
  datatype ParsedUrl = ParsedUrl(hostname: Option<string>, path: string, query: map<string, seq<string>>)

  const EmbedPrefix: string := "https://www.youtube.com/embed/"

  /** The video id, or None where the source's `try` falls into `except` or finds no known host. */
  function VideoId(u: ParsedUrl): (r: Option<string>)
    ensures r.Some? ==> u.hostname.Some?
    ensures r.Some? ==> Contains(u.hostname.value, "youtube.com") || Contains(u.hostname.value, "youtu.be")
  {
    if u.hostname.None? then None
    else if Contains(u.hostname.value, "youtube.com") then
      if "v" in u.query && |u.query["v"]| > 0 then Some(u.query["v"][0]) else None
    else if Contains(u.hostname.value, "youtu.be") then Some(if u.path == "" then "" else u.path[1..])
    else None
  }

  /** The embed URL, when the extracted id is non-empty. */
  function EmbedUrl(u: ParsedUrl): (r: Option<string>)
    ensures r.Some? ==> IsPrefix(EmbedPrefix, r.value) && |r.value| > |EmbedPrefix|
  {
    var id := VideoId(u);
    if id.Some? && id.value != "" then Some(EmbedPrefix + id.value) else None
  }

  /** A link embeds exactly when it has a host and either the host contains "youtube.com" and the first
      `v` parameter is non-empty, or the host contains "youtu.be" (and not "youtube.com") and the path
      has more than its leading character; the id is that parameter or the path after its first character. */
  lemma EmbedUrlIff(u: ParsedUrl, id: string)
    ensures EmbedUrl(u) == Some(EmbedPrefix + id) <==>
      && u.hostname.Some?
      && id != ""
      && if Contains(u.hostname.value, "youtube.com") then "v" in u.query && |u.query["v"]| > 0 && u.query["v"][0] == id
         else Contains(u.hostname.value, "youtu.be") && |u.path| > 1 && u.path[1..] == id
  {
    var r := EmbedUrl(u);
    if r == Some(EmbedPrefix + id) {
      var v := VideoId(u).value;
      assert EmbedPrefix + v == EmbedPrefix + id;
      assert v == (EmbedPrefix + v)[|EmbedPrefix|..];
      assert id == (EmbedPrefix + id)[|EmbedPrefix|..];
    }
  }

  /** A watch URL yields its `v` parameter; one without `v`, or without a host, yields nothing. */
  lemma WatchUrlExamples()
    ensures EmbedUrl(ParsedUrl(Some("www.youtube.com"), "/watch", map["v" := ["dQw4w9WgXcQ"]])) == Some(EmbedPrefix + "dQw4w9WgXcQ")
    ensures EmbedUrl(ParsedUrl(Some("www.youtube.com"), "/watch", map[])) == None
    ensures EmbedUrl(ParsedUrl(None, "/watch", map["v" := ["x"]])) == None
  {
    assert Contains("www.youtube.com", "youtube.com") by {
      assert IsPrefix("youtube.com", "www.youtube.com"[4..]);
      ContainsAt("www.youtube.com", "youtube.com");
    }
  }

  /** A youtu.be URL yields its path without the leading '/', and nothing when that is empty. */
  lemma ShortUrlExamples()
    ensures EmbedUrl(ParsedUrl(Some("youtu.be"), "/dQw4w9WgXcQ", map[])) == Some(EmbedPrefix + "dQw4w9WgXcQ")
    ensures EmbedUrl(ParsedUrl(Some("youtu.be"), "/", map[])) == None
  {
    assert !Contains("youtu.be", "youtube.com");
    assert Contains("youtu.be", "youtu.be") by { assert IsPrefix("youtu.be", "youtu.be"); }
  }
}
