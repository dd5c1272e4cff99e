/**
 * `get_file_name_from_url` of pyScripts/get_esp_data.py: the archive name
 * at the end of a download URL, `url.rsplit('/', 1)[-1]`.
 */
module EspData {
  import opened Text

  predicate NotSlash(c: char) { c != '/' }

  /**
   * The text after the last `/` of `url`, or all of `url` when it has none.
   * It holds no `/`, and what precedes it in `url` is empty or ends in `/`.
   */
  function FileNameFromUrl(url: string): (name: string)
    ensures '/' !in name
    ensures |name| <= |url| && name == url[|url| - |name|..]
    ensures |name| == |url| || url[|url| - |name| - 1] == '/'
  {
    var i := RunStart(url, |url|, NotSlash);
    assert forall k | 0 <= k < |url[i..]| :: url[i..][k] == url[i + k];
    url[i..]
  }

  /**
   * The name is the only split of `url` into a prefix that is empty or ends
   * in `/`, and a tail with no `/`.
   */
  lemma FileNameUnique(prefix: string, name: string)
    requires '/' !in name && (prefix == [] || prefix[|prefix| - 1] == '/')
    ensures FileNameFromUrl(prefix + name) == name
  {
    var url := prefix + name;
    assert forall k | |prefix| <= k < |url| :: url[k] == name[k - |prefix|] && name[k - |prefix|] in name;
    RunStartOver(url, |prefix|, |url|, NotSlash);
    assert url[|prefix|..] == name;
  }

  /** A URL with no `/` is its own name. */
  lemma NoSlashUnchanged(url: string)
    requires '/' !in url
    ensures FileNameFromUrl(url) == url
  {
    FileNameUnique([], url);
    assert [] + url == url;
  }

  /** A URL ending in `/` names nothing. */
  lemma TrailingSlashEmpty(url: string)
    requires |url| > 0 && url[|url| - 1] == '/'
    ensures FileNameFromUrl(url) == []
  {
    FileNameUnique(url, []);
    assert url + [] == url;
  }

  /** The last of the parts. */
  function LastPart(parts: seq<string>): string
    requires |parts| >= 1
  {
    parts[|parts| - 1]
  }

  /** `url.rsplit('/', 1)[-1]` is also `url.split('/')[-1]`, the last of all the parts. */
  lemma {:induction false} FileNameIsLastPart(url: string)
    ensures FileNameFromUrl(url) == LastPart(Split(url, '/'))
    decreases |url|
  {
    var i := IndexOf(url, '/');
    if i == |url| {
      NoSlashIsWhole(url);
    } else {
      var tail := url[i + 1..];
      FileNameIsLastPart(tail);
      LastPartAfterSlash(url);
      NameAfterSlash(url, i);
      calc {
        FileNameFromUrl(url);
        FileNameFromUrl(tail);
        LastPart(Split(tail, '/'));
        LastPart(Split(url, '/'));
      }
    }
  }

  /** With no `/` at all, the one part and the name are the whole URL. */
  lemma NoSlashIsWhole(url: string)
    requires IndexOf(url, '/') == |url|
    ensures LastPart(Split(url, '/')) == url == FileNameFromUrl(url)
  {
    assert Split(url, '/') == [url];
    assert '/' !in url by {
      assert forall k | 0 <= k < |url| :: url[k] != '/';
    }
    NoSlashUnchanged(url);
  }

  /** Past the first `/`, the last part is the last part of the rest. */
  lemma LastPartAfterSlash(url: string)
    requires IndexOf(url, '/') < |url|
    ensures LastPart(Split(url, '/')) == LastPart(Split(url[IndexOf(url, '/') + 1..], '/'))
  {
    var i := IndexOf(url, '/');
    var rest := Split(url[i + 1..], '/');
    assert Split(url, '/') == [url[..i]] + rest;
  }

  /** The name after the last `/` is the name of what follows any earlier `/`. */
  lemma NameAfterSlash(url: string, i: nat)
    requires i < |url| && url[i] == '/'
    ensures FileNameFromUrl(url) == FileNameFromUrl(url[i + 1..])
  {
    var name := FileNameFromUrl(url[i + 1..]);
    SlashBeforeName(url, i, name);
    FileNameUnique(url[..|url| - |name|], name);
  }

  /** The name of the part after a `/` is preceded in the whole URL by a `/`. */
  lemma SlashBeforeName(url: string, i: nat, name: string)
    requires i < |url| && url[i] == '/' && name == FileNameFromUrl(url[i + 1..])
    ensures |name| < |url| && url == url[..|url| - |name|] + name
    ensures url[|url| - |name| - 1] == '/'
  {
    var tail := url[i + 1..];
    assert tail == url[|url| - |tail|..];
    assert url[|url| - |name|..] == tail[|tail| - |name|..] == name;
    assert url == url[..|url| - |name|] + url[|url| - |name|..];
    assert url[|url| - |name| - 1] == '/' by {
      if |name| < |tail| {
        assert url[|url| - |name| - 1] == tail[|tail| - |name| - 1];
      }
    }
  }
}
