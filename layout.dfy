/** The frame around every page: the breadcrumb made from the route path,
    and the title and subtitle of the top bar. */
module Layout {
  import opened Js
  import opened Text

  const Home: string := "İdarə paneli"
  const DefaultSubtitle: string := "İstifadəçiləri, elanları və proses loglarını idarə edin."

  /** `\w`: an ASCII letter, digit or underscore. */
  predicate IsWordChar(c: char)
  {
    ('a' <= c <= 'z') || ('A' <= c <= 'Z') || ('0' <= c <= '9') || c == '_'
  }

  /** `\b\w` matches at `i`: a word character that no word character precedes. */
  predicate StartsWord(s: string, i: int)
    requires 0 <= i < |s|
  {
    IsWordChar(s[i]) && (i == 0 || !IsWordChar(s[i - 1]))
  }

  /** `s.replace(/\b\w/g, (c) => c.toUpperCase())`. */
  function CapitalizeWords(s: string): (r: string)
    ensures |r| == |s|
    ensures forall i :: 0 <= i < |s| ==> r[i] == if StartsWord(s, i) then UpperChar(s[i]) else s[i]
  {
    seq(|s|, i requires 0 <= i < |s| => if StartsWord(s, i) then UpperChar(s[i]) else s[i])
  }

  /** The index of the first `c` in `s`, when there is one. */
  function IndexOf(s: string, c: char): (r: Option<nat>)
    ensures r.Some? ==> r.value < |s| && s[r.value] == c && c !in s[..r.value]
    ensures r.None? ==> c !in s
  {
    if s == [] then None
    else if s[0] == c then Some(0)
    else
      var r := IndexOf(s[1..], c);
      if r.None? then None
      else
        assert s[..r.value + 1] == [s[0]] + s[1..][..r.value];
        Some(r.value + 1)
  }

  /** `s.replace(c, '')` with a string pattern: only the first `c` is removed. */
  function RemoveFirst(s: string, c: char): string
  {
    var k := IndexOf(s, c);
    if k.None? then s else s[..k.value] + s[k.value + 1..]
  }

  /** `breadcrumb`: the home title for the root path, else the path without
      its first slash and with every word capitalised. */
  function Breadcrumb(path: string): string
  {
    if path == "/" || path == "" then Home
    else CapitalizeWords(RemoveFirst(path, '/'))
  }

  /** The root path, written `/` or empty, shows the home title. */
  lemma BreadcrumbOfRoot()
    ensures Breadcrumb("/") == Home && Breadcrumb("") == Home
  {
  }

  /** For a route path: the first slash, and only it, is dropped (later
      ones stay), each ASCII word character that begins a word is upper-cased
      and every other character is kept, so the breadcrumb is one character
      shorter than the path. */
  lemma BreadcrumbOfRoute(path: string)
    requires |path| > 1 && path[0] == '/'
    ensures |Breadcrumb(path)| == |path| - 1
    ensures forall i :: 1 <= i < |path| ==>
              Breadcrumb(path)[i - 1] == if StartsWord(path[1..], i - 1) then UpperChar(path[i]) else path[i]
    ensures forall i :: 1 <= i < |path| && path[i] == '/' ==> Breadcrumb(path)[i - 1] == '/'
    ensures forall i :: 1 <= i < |path| && !StartsWord(path[1..], i - 1) ==> Breadcrumb(path)[i - 1] == path[i]
  {
    assert IndexOf(path, '/') == Some(0);
    assert RemoveFirst(path, '/') == path[1..];
  }

  /** The breadcrumb only changes letter case: lower-casing it gives back
      the path without its first slash. */
  lemma BreadcrumbKeepsText(path: string)
    requires path != "/" && path != ""
    ensures Lower(Breadcrumb(path)) == Lower(RemoveFirst(path, '/'))
  {
    var s := RemoveFirst(path, '/');
    var r := CapitalizeWords(s);
    forall i | 0 <= i < |s| ensures LowerChar(r[i]) == LowerChar(s[i]) {
    }
  }

  /** One job as the page shows it: the second slash is kept and the id is
      capitalised too. */
  lemma BreadcrumbOfJob()
    ensures Breadcrumb("/jobs/abc") == "Jobs/Abc"
  {
    assert RemoveFirst("/jobs/abc", '/') == "jobs/abc";
    CapitalizeJobAbc();
  }

  lemma CapitalizeJobAbc()
    ensures CapitalizeWords("jobs/abc") == "Jobs/Abc"
  {
    var s := "jobs/abc";
    assert StartsWord(s, 0) && !StartsWord(s, 1) && !StartsWord(s, 2) && !StartsWord(s, 3);
    assert !StartsWord(s, 4) && StartsWord(s, 5) && !StartsWord(s, 6) && !StartsWord(s, 7);
  }

  /** The top-bar title: the page's own title when it gives one, the breadcrumb otherwise. */
  function PageTitle(title: Option<string>, path: string): (r: string)
    ensures Truthy(title) ==> r == title.value
    ensures !Truthy(title) ==> r == Breadcrumb(path)
  {
    OrElse(title, Breadcrumb(path))
  }

  /** The top-bar subtitle: the page's own, or the default one. */
  function PageSubtitle(subtitle: Option<string>): (r: string)
    ensures r != ""
    ensures Truthy(subtitle) ==> r == subtitle.value
    ensures !Truthy(subtitle) ==> r == DefaultSubtitle
  {
    OrElse(subtitle, DefaultSubtitle)
  }
}
