/** The feedback dialog: the list of feedback names for a site, sorted in
    place as `fbs.sort()` does, and the content type chosen when one is opened. */
module Feedbacks {

  import opened Text
  import Screen

  const TextPlain: string := "text/plain"
  const OctetStream: string := "application/octet-stream"

  /** Adjacent entries are in order. */
  predicate Sorted(s: seq<string>)
  {
    forall k :: 0 < k < |s| ==> StrLe(s[k - 1], s[k])
  }

  /** Swaps two neighbours, keeping the contents. */
  method SwapDown(a: array<string>, j: int)
    requires 0 < j < a.Length
    modifies a
    ensures a[j - 1] == old(a[j]) && a[j] == old(a[j - 1])
    ensures forall m :: 0 <= m < a.Length && m != j - 1 && m != j ==> a[m] == old(a[m])
    ensures multiset(a[..]) == old(multiset(a[..]))
  {
    a[j - 1], a[j] := a[j], a[j - 1];
  }

  /** `Array.prototype.sort()` with the default comparison, on an array of names. */
  method SortInPlace(a: array<string>)
    modifies a
    ensures Sorted(a[..])
    ensures multiset(a[..]) == old(multiset(a[..]))
  {
    var i := 0;
    while i < a.Length
      invariant 0 <= i <= a.Length
      invariant forall k :: 0 < k < i ==> StrLe(a[k - 1], a[k])
      invariant multiset(a[..]) == old(multiset(a[..]))
    {
      var j := i;
      while 0 < j && !StrLe(a[j - 1], a[j])
        invariant 0 <= j <= i
        invariant forall k :: 0 < k < j ==> StrLe(a[k - 1], a[k])
        invariant forall k :: j < k <= i ==> StrLe(a[k - 1], a[k])
        invariant 0 < j < i ==> StrLe(a[j - 1], a[j + 1])
        invariant multiset(a[..]) == old(multiset(a[..]))
      {
        StrLeTotal(a[j - 1], a[j]);
        SwapDown(a, j);
        j := j - 1;
      }
      i := i + 1;
    }
  }

  /** A sorted list holds its names in one order only. */
  lemma {:induction false} SortedUnique(s: seq<string>, t: seq<string>)
    requires Sorted(s) && Sorted(t) && multiset(s) == multiset(t)
    ensures s == t
    decreases |s|
  {
    if s != [] {
      assert |t| == |multiset(t)| == |s|;
      SortedMinimum(s);
      SortedMinimum(t);
      assert s[0] in multiset(t) && t[0] in multiset(s);
      StrLeAntisymmetric(s[0], t[0]);
      assert s == [s[0]] + s[1..] && t == [t[0]] + t[1..];
      assert multiset(s[1..]) == multiset(s) - multiset{s[0]};
      assert multiset(t[1..]) == multiset(t) - multiset{t[0]};
      SortedUnique(s[1..], t[1..]);
    }
  }

  /** The first entry of a sorted list is at most every entry. */
  lemma {:induction false} SortedMinimum(s: seq<string>)
    requires Sorted(s) && s != []
    ensures forall x :: x in s ==> StrLe(s[0], x)
    decreases |s|
  {
    if |s| > 1 {
      SortedMinimum(s[1..]);
      forall x | x in s ensures StrLe(s[0], x) {
        if x == s[0] {
          StrLeReflexive(x);
        } else {
          assert x in s[1..];
          StrLeTransitive(s[0], s[1], x);
        }
      }
    } else {
      StrLeReflexive(s[0]);
    }
  }

  class FeedbacksDialog {
    const user: string
    var site: Screen.SiteRef
    var feedbacks: seq<string>

    constructor (user: string, site: Screen.SiteRef)
      ensures this.user == user && this.site == site && feedbacks == []
    {
      this.user := user;
      this.site := site;
      feedbacks := [];
    }

    /** The fetch effect, run for `site`: `fbs` is the array
        `fetchFeedbacks(user, site)` returned; it is sorted in place and
        becomes the list. */
    method Load(site: Screen.SiteRef, fbs: array<string>)
      modifies this`site, this`feedbacks, fbs
      ensures this.site == site
      ensures Sorted(feedbacks)
      ensures multiset(feedbacks) == multiset(old(fbs[..]))
      ensures feedbacks == fbs[..]
    {
      this.site := site;
      SortInPlace(fbs);
      feedbacks := fbs[..];
    }

    /** `showFeedback`, with `ApiService.fetchFeedback` as an oracle: the
        download carries the name, the content fetched for this user and
        site, and the type `MimeFor` picks. */
    method ShowFeedback(fb: string, fetchFeedback: (string, Screen.SiteRef, string) -> string)
      returns (d: Download)
      ensures d.name == fb && d.content == fetchFeedback(user, site, fb)
      ensures d.mime == MimeFor(fb)
      ensures d.mime == TextPlain <==> EndsWith(fb, ".txt")
    {
      var content := fetchFeedback(user, site, fb);
      d := Download(fb, MimeFor(fb), content);
    }

    /** The names shown, one per entry, in list order. */
    function Shown(show: bool): (names: seq<string>)
      reads this
      ensures show ==> names == feedbacks
      ensures !show ==> names == []
    {
      if show then feedbacks else []
    }
  }

  /** `["b.txt","a.txt"]` is stored as `["a.txt","b.txt"]`: whatever `Load`
      stores for that fetch is this list. */
  lemma FeedbackOrderExample(stored: seq<string>)
    requires Sorted(stored) && multiset(stored) == multiset(["b.txt", "a.txt"])
    ensures stored == ["a.txt", "b.txt"]
  {
    assert StrLe("a.txt", "b.txt");
    assert multiset(["a.txt", "b.txt"]) == multiset(["b.txt", "a.txt"]);
    SortedUnique(stored, ["a.txt", "b.txt"]);
  }

  /** What `showFeedback` hands to the download: the name, the content type
      and the content `fetchFeedback` returned. */
  datatype Download = Download(name: string, mime: string, content: string)

  /** The content type given to the downloaded page. */
  function MimeFor(fbName: string): (mime: string)
    ensures mime == TextPlain <==> EndsWith(fbName, ".txt")
    ensures mime == TextPlain || mime == OctetStream
  {
    if EndsWith(fbName, ".txt") then TextPlain else OctetStream
  }

  /** Any name given the `.txt` suffix opens as plain text. */
  lemma TxtNamesArePlainText(stem: string)
    ensures MimeFor(stem + ".txt") == TextPlain
  {
    AppendedSuffixEndsWith(stem, ".txt");
  }
}
