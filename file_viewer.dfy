/**
 * FileViewer 3.0.0: the table from file extension to online viewer, the
 * viewer address for an attachment, and the show/hide state of the
 * preview that the plugin adds under each attachment.
 */
module FileViewer {
  import opened Lists

  /** The three groups of `fileExtensions`, each served by one online viewer. */
  datatype Category = Office | Google | Object

  /** The viewer address a category's files are appended to. */
  function BaseUrl(c: Category): (r: string)
    ensures |r| > 0
  {
    match c
    case Office => "https://view.officeapps.live.com/op/view.aspx?src="
    case Google => "https://drive.google.com/viewerng/viewer?embedded=true&url="
    case Object => "https://www.viewstl.com/?embedded&url="
  }

  const OfficeExtensions: seq<string> := ["ppt", "pptx", "doc", "docx", "xls", "xlsx", "odt"]
  const GoogleExtensions: seq<string> := ["pdf"]
  const ObjectExtensions: seq<string> := ["stl", "obj", "vf", "vsj", "vsb", "3mf"]

  /** `Object.entries(fileExtensions)`, in the order the object literal gives them. */
  const FileExtensions: seq<(Category, seq<string>)> :=
    [(Office, OfficeExtensions), (Google, GoogleExtensions), (Object, ObjectExtensions)]

  /** `extensions.forEach(extension => (extensionMap[extension] = baseUrl))` */
  function Insert(m: map<string, string>, extensions: seq<string>, baseUrl: string): (r: map<string, string>)
    ensures r.Keys == m.Keys + (set e | e in extensions)
    ensures forall e :: e in extensions ==> r[e] == baseUrl
    ensures forall k :: k in m && k !in extensions ==> r[k] == m[k]
    decreases |extensions|
  {
    if extensions == [] then m
    else Insert(m[extensions[0] := baseUrl], extensions[1..], baseUrl)
  }

  /** Every value of `m` is the base URL of one of the three viewers. */
  predicate ViewerValues(m: map<string, string>)
  {
    forall k :: k in m ==> m[k] == BaseUrl(Office) || m[k] == BaseUrl(Google) || m[k] == BaseUrl(Object)
  }

  /** The `reduce` over the entries, from the accumulator `m` onwards. */
  function Reduce(m: map<string, string>, entries: seq<(Category, seq<string>)>): (r: map<string, string>)
    ensures m.Keys <= r.Keys
    ensures ViewerValues(m) ==> ViewerValues(r)
    decreases |entries|
  {
    if entries == [] then m
    else Reduce(Insert(m, entries[0].1, BaseUrl(entries[0].0)), entries[1..])
  }

  /** `extensionSources`: the reduce started from `{}`. */
  function ExtensionSources(): (r: map<string, string>)
    ensures ViewerValues(r)
    ensures forall k :: k in r ==> r[k] != ""
  {
    Reduce(map[], FileExtensions)
  }

  /** Some entry lists extension `k`. */
  ghost predicate ListedIn(entries: seq<(Category, seq<string>)>, k: string)
  {
    exists i :: 0 <= i < |entries| && k in entries[i].1
  }

  /** Entry `i` is the last entry that lists extension `k`. */
  ghost predicate LastListedAt(entries: seq<(Category, seq<string>)>, i: int, k: string)
  {
    0 <= i < |entries| && k in entries[i].1 && forall j :: i < j < |entries| ==> k !in entries[j].1
  }

  /** After the reduce, a key is there exactly when it was in the start map or some entry lists it. */
  lemma {:induction false} ReduceKeys(m: map<string, string>, entries: seq<(Category, seq<string>)>, k: string)
    ensures k in Reduce(m, entries) <==> k in m || ListedIn(entries, k)
    decreases |entries|
  {
    if entries != [] {
      var rest := entries[1..];
      ReduceKeys(Insert(m, entries[0].1, BaseUrl(entries[0].0)), rest, k);
      if ListedIn(entries, k) {
        var i :| 0 <= i < |entries| && k in entries[i].1;
        if i > 0 {
          assert rest[i - 1] == entries[i];
        }
      }
      if ListedIn(rest, k) {
        var i :| 0 <= i < |rest| && k in rest[i].1;
        assert entries[i + 1] == rest[i];
      }
    }
  }

  /** A listed key maps to the base URL of the last entry that lists it. */
  lemma {:induction false} ReduceValue(m: map<string, string>, entries: seq<(Category, seq<string>)>, k: string, i: int)
    requires LastListedAt(entries, i, k)
    ensures k in Reduce(m, entries) && Reduce(m, entries)[k] == BaseUrl(entries[i].0)
    decreases |entries|
  {
    var m' := Insert(m, entries[0].1, BaseUrl(entries[0].0));
    var rest := entries[1..];
    if i > 0 {
      assert LastListedAt(rest, i - 1, k) by {
        assert rest[i - 1] == entries[i];
        forall j | i - 1 < j < |rest|
          ensures k !in rest[j].1
        {
          assert rest[j] == entries[j + 1];
        }
      }
      ReduceValue(m', rest, k, i - 1);
    } else {
      assert !ListedIn(rest, k) by {
        forall j | 0 <= j < |rest|
          ensures k !in rest[j].1
        {
          assert rest[j] == entries[j + 1];
        }
      }
      ReduceUnlisted(m', rest, k);
    }
  }

  /** A key no entry lists keeps its start value. */
  lemma {:induction false} ReduceUnlisted(m: map<string, string>, entries: seq<(Category, seq<string>)>, k: string)
    requires k in m && !ListedIn(entries, k)
    ensures k in Reduce(m, entries) && Reduce(m, entries)[k] == m[k]
    decreases |entries|
  {
    if entries != [] {
      var rest := entries[1..];
      assert k !in entries[0].1;
      assert !ListedIn(rest, k) by {
        forall j | 0 <= j < |rest|
          ensures k !in rest[j].1
        {
          assert rest[j] == entries[j + 1];
        }
      }
      ReduceUnlisted(Insert(m, entries[0].1, BaseUrl(entries[0].0)), rest, k);
    }
  }

  /** No extension is listed under two categories. */
  lemma ListsDisjoint(ext: string)
    ensures ext in OfficeExtensions ==> ext !in GoogleExtensions && ext !in ObjectExtensions
    ensures ext in GoogleExtensions ==> ext !in ObjectExtensions
  {
  }

  /** No listed extension holds a dot or a slash. */
  lemma ListedArePlain(ext: string)
    requires ext in OfficeExtensions || ext in GoogleExtensions || ext in ObjectExtensions
    ensures '.' !in ext && '/' !in ext
  {
  }

  /** The table holds exactly the listed extensions. */
  lemma ExtensionSourcesKeys(ext: string)
    ensures ext in ExtensionSources() <==> ext in OfficeExtensions || ext in GoogleExtensions || ext in ObjectExtensions
  {
    var entries := FileExtensions;
    ReduceKeys(map[], entries, ext);
    if ListedIn(entries, ext) {
      var i :| 0 <= i < |entries| && ext in entries[i].1;
      assert i == 0 || i == 1 || i == 2;
    }
    if ext in OfficeExtensions {
      assert ext in entries[0].1;
    } else if ext in GoogleExtensions {
      assert ext in entries[1].1;
    } else if ext in ObjectExtensions {
      assert ext in entries[2].1;
    }
  }

  /** Each listed extension maps to the base URL of its own category. */
  lemma ExtensionSourcesValues(ext: string)
    ensures ext in OfficeExtensions ==> ext in ExtensionSources() && ExtensionSources()[ext] == BaseUrl(Office)
    ensures ext in GoogleExtensions ==> ext in ExtensionSources() && ExtensionSources()[ext] == BaseUrl(Google)
    ensures ext in ObjectExtensions ==> ext in ExtensionSources() && ExtensionSources()[ext] == BaseUrl(Object)
  {
    var entries := FileExtensions;
    ListsDisjoint(ext);
    if ext in OfficeExtensions {
      assert LastListedAt(entries, 0, ext);
      ReduceValue(map[], entries, ext, 0);
    } else if ext in GoogleExtensions {
      assert LastListedAt(entries, 1, ext);
      ReduceValue(map[], entries, ext, 1);
    } else if ext in ObjectExtensions {
      assert LastListedAt(entries, 2, ext);
      ReduceValue(map[], entries, ext, 2);
    }
  }

  /**
   * The table holds exactly the listed extensions, each mapped to the base
   * URL of its own category.
   */
  lemma ExtensionSourcesContents(ext: string)
    ensures ext in ExtensionSources() <==> ext in OfficeExtensions || ext in GoogleExtensions || ext in ObjectExtensions
    ensures ext in OfficeExtensions ==> ext in ExtensionSources() && ExtensionSources()[ext] == BaseUrl(Office)
    ensures ext in GoogleExtensions ==> ext in ExtensionSources() && ExtensionSources()[ext] == BaseUrl(Google)
    ensures ext in ObjectExtensions ==> ext in ExtensionSources() && ExtensionSources()[ext] == BaseUrl(Object)
  {
    ExtensionSourcesKeys(ext);
    ExtensionSourcesValues(ext);
  }

  /** The `reduce` written as the loops it runs: one pass per entry, one assignment per extension. */
  method BuildExtensionSources() returns (extensionMap: map<string, string>)
    ensures extensionMap == ExtensionSources()
  {
    extensionMap := map[];
    var entries := FileExtensions;
    var i := 0;
    while i < |entries|
      invariant 0 <= i <= |entries|
      invariant Reduce(extensionMap, entries[i..]) == ExtensionSources()
    {
      var (category, extensions) := entries[i];
      var baseUrl := BaseUrl(category);
      ghost var start := extensionMap;
      var j := 0;
      while j < |extensions|
        invariant 0 <= j <= |extensions|
        invariant Insert(extensionMap, extensions[j..], baseUrl) == Insert(start, extensions, baseUrl)
      {
        assert extensions[j..][1..] == extensions[j + 1..];
        extensionMap := extensionMap[extensions[j] := baseUrl];
        j := j + 1;
      }
      assert entries[i..][1..] == entries[i + 1..];
      i := i + 1;
    }
  }

  /** `toLowerCase` on one character, for the ASCII letters. */
  function LowerChar(c: char): (r: char)
    ensures 'A' <= c <= 'Z' ==> r as int == c as int + 32
    ensures !('A' <= c <= 'Z') ==> r == c
  {
    if 'A' <= c <= 'Z' then (c as int + 32) as char else c
  }

  /** `toLowerCase` on a string, character by character. */
  function ToLower(s: string): (r: string)
    ensures |r| == |s| && forall i :: 0 <= i < |s| ==> r[i] == LowerChar(s[i])
  {
    seq(|s|, i requires 0 <= i < |s| => LowerChar(s[i]))
  }

  /** `split(".").pop()`: the text after the last dot, or the whole string when it has none. */
  function AfterLastDot(s: string): (r: string)
    ensures '.' !in r
    ensures |r| <= |s| && r == s[|s| - |r|..]
    ensures '.' in s ==> |r| < |s| && s[|s| - |r| - 1] == '.'
    ensures '.' !in s ==> r == s
    decreases |s|
  {
    if s == [] then []
    else if s[|s| - 1] == '.' then []
    else
      var front := s[..|s| - 1];
      assert '.' in s ==> '.' in front;
      var r := AfterLastDot(front) + [s[|s| - 1]];
      assert r == s[|s| - |r|..];
      r
  }

  /** The extension `getSourceUrl` looks up for a pathname. */
  function Extension(pathname: string): (r: string)
    ensures '.' !in r && |r| <= |pathname|
  {
    AfterLastDot(ToLower(pathname))
  }

  /** The text after the last dot of `front.ext` is `ext`, whatever `front` holds. */
  lemma AfterLastDotOf(front: string, ext: string)
    requires '.' !in ext
    ensures AfterLastDot(front + "." + ext) == ext
  {
    var s := front + "." + ext;
    var r := AfterLastDot(s);
    assert s[|s| - |ext| - 1] == '.';
    assert |r| == |ext|;
  }

  /** The extension of `front.ext` is `ext` lower-cased. */
  lemma ExtensionOf(front: string, ext: string)
    requires '.' !in ext
    ensures Extension(front + "." + ext) == ToLower(ext)
  {
    assert ToLower(front + "." + ext) == ToLower(front) + "." + ToLower(ext);
    assert '.' !in ToLower(ext) by {
      forall i | 0 <= i < |ext|
        ensures ToLower(ext)[i] != '.'
      {
        assert ext[i] != '.';
      }
    }
    AfterLastDotOf(ToLower(front), ToLower(ext));
  }

  /**
   * `getSourceUrl(url)`, with `pathname` standing for `new URL(url).pathname`:
   * the viewer address followed by the url, or `null` (None).
   */
  function GetSourceUrl(url: string, pathname: string): (r: Option<string>)
    ensures r.Some? ==> Extension(pathname) in ExtensionSources()
    ensures r.Some? ==> |r.value| > |url| && r.value[|r.value| - |url|..] == url
  {
    var fileExtension := Extension(pathname);
    var sources := ExtensionSources();
    if fileExtension in sources && sources[fileExtension] != "" then Some(sources[fileExtension] + url) else None
  }

  /**
   * A pathname gets a viewer exactly when its lower-cased extension is
   * listed; the address is the category's base URL followed by the
   * unchanged url, which it therefore ends with.
   */
  lemma GetSourceUrlSpec(url: string, pathname: string)
    ensures var ext := Extension(pathname);
      && (GetSourceUrl(url, pathname).Some? <==> ext in OfficeExtensions || ext in GoogleExtensions || ext in ObjectExtensions)
      && (ext in OfficeExtensions ==> GetSourceUrl(url, pathname) == Some(BaseUrl(Office) + url))
      && (ext in GoogleExtensions ==> GetSourceUrl(url, pathname) == Some(BaseUrl(Google) + url))
      && (ext in ObjectExtensions ==> GetSourceUrl(url, pathname) == Some(BaseUrl(Object) + url))
  {
    var ext := Extension(pathname);
    ExtensionSourcesContents(ext);
  }

  /** Pathnames that differ only in the case of their letters get the same viewer address. */
  lemma CaseInsensitive(url: string, p: string, q: string)
    requires |p| == |q| && forall i :: 0 <= i < |p| ==> LowerChar(p[i]) == LowerChar(q[i])
    ensures GetSourceUrl(url, p) == GetSourceUrl(url, q)
  {
    assert ToLower(p) == ToLower(q);
  }

  /** A pathname without a dot (which starts with `/`, as every pathname does) has no viewer. */
  lemma NoDotNoViewer(url: string, pathname: string)
    requires |pathname| > 0 && pathname[0] == '/' && '.' !in pathname
    ensures GetSourceUrl(url, pathname) == None
  {
    var lower := ToLower(pathname);
    assert '.' !in lower by {
      forall i | 0 <= i < |lower|
        ensures lower[i] != '.'
      {
        assert pathname[i] != '.';
      }
    }
    var ext := Extension(pathname);
    assert ext == lower && ext[0] == '/';
    if ext in OfficeExtensions || ext in GoogleExtensions || ext in ObjectExtensions {
      ListedArePlain(ext);
      assert false;
    }
    ExtensionSourcesContents(ext);
  }

  /** Only the text after the last dot counts, after lower-casing: `Report.v2.PDF` opens in the pdf viewer. */
  lemma LastDotUpperCase(url: string)
    ensures GetSourceUrl(url, "/attachments/Report.v2.PDF") == Some(BaseUrl(Google) + url)
  {
    ExtensionOf("/attachments/Report.v2", "PDF");
    assert "/attachments/Report.v2.PDF" == "/attachments/Report.v2" + "." + "PDF";
    assert ToLower("PDF") == "pdf";
    GetSourceUrlSpec(url, "/attachments/Report.v2.PDF");
  }

  /** The preview component of one attachment: `url` and the toggled `isShown` state. */
  class FileViewerComponent {
    const url: string
    /** `new URL(url).pathname` */
    const pathname: string
    var isShown: bool

    /** `React.useState(false)`: the preview starts hidden. */
    constructor(url: string, pathname: string)
      ensures this.url == url && this.pathname == pathname && !isShown
    {
      this.url := url;
      this.pathname := pathname;
      isShown := false;
    }

    /** `handleClick`: flips `isShown`. */
    method HandleClick()
      modifies this`isShown
      ensures isShown == !old(isShown)
    {
      isShown := !isShown;
    }

    /**
     * `IframeComponent`: nothing while the preview is hidden, otherwise an
     * iframe whose `src` is the viewer address (which may be `null`).
     */
    function Iframe(): (r: Option<Option<string>>)
      reads this
      ensures r.None? <==> !isShown
      ensures r.Some? ==> r.value == GetSourceUrl(url, pathname)
    {
      if !isShown then None else Some(GetSourceUrl(url, pathname))
    }
  }

  /** Two clicks put the preview back as it was, whichever state it started in. */
  method ClickTwice(c: FileViewerComponent)
    modifies c
    ensures c.isShown == old(c.isShown) && c.Iframe() == old(c.Iframe())
  {
    c.HandleClick();
    c.HandleClick();
  }
}
