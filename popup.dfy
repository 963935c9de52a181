/**
 * src/popup/index.ts, the two pure parts: the restricted-URL test and the
 * choice between a disabled button (with its message) and the pick button
 * for the active tab.
 */
module Popup {
  import opened Wrappers
  import opened Json

  /** `s.startsWith(prefix)`. */
  predicate StartsWith(s: string, prefix: string)
    ensures StartsWith(s, prefix) <==> |prefix| <= |s| && s[..|prefix|] == prefix
  {
    prefix <= s
  }

  /** A single differing character rules a prefix out. */
  lemma DiffersAt(s: string, prefix: string, i: nat)
    requires i < |s| && i < |prefix| && s[i] != prefix[i]
    ensures !StartsWith(s, prefix)
  {
  }

  /** The prefixes `isRestrictedTabUrl` tests, in the order it tests them. */
  const RestrictedPrefixes: seq<string> := [
    "chrome://", "chrome-extension://", "devtools://", "about:", "view-source:",
    "edge://", "file://", "https://chrome.google.com/webstore", "https://chromewebstore.google.com"]

  /** `isRestrictedTabUrl`: the URL starts with one of the listed prefixes. */
  function IsRestrictedTabUrl(url: string): (r: bool)
    ensures r <==> exists i :: 0 <= i < |RestrictedPrefixes| && StartsWith(url, RestrictedPrefixes[i])
  {
    assert RestrictedPrefixes[0] == "chrome://" && RestrictedPrefixes[1] == "chrome-extension://";
    assert RestrictedPrefixes[2] == "devtools://" && RestrictedPrefixes[3] == "about:";
    assert RestrictedPrefixes[4] == "view-source:" && RestrictedPrefixes[5] == "edge://";
    assert RestrictedPrefixes[6] == "file://" && RestrictedPrefixes[7] == "https://chrome.google.com/webstore";
    assert RestrictedPrefixes[8] == "https://chromewebstore.google.com";
    || StartsWith(url, "chrome://")
    || StartsWith(url, "chrome-extension://")
    || StartsWith(url, "devtools://")
    || StartsWith(url, "about:")
    || StartsWith(url, "view-source:")
    || StartsWith(url, "edge://")
    || StartsWith(url, "file://")
    || StartsWith(url, "https://chrome.google.com/webstore")
    || StartsWith(url, "https://chromewebstore.google.com")
  }

  /** Whatever follows a restricted prefix, the URL stays restricted. */
  lemma RestrictedClosedUnderExtension(url: string, suffix: string)
    requires IsRestrictedTabUrl(url)
    ensures IsRestrictedTabUrl(url + suffix)
  {
    var i :| 0 <= i < |RestrictedPrefixes| && StartsWith(url, RestrictedPrefixes[i]);
    var p := RestrictedPrefixes[i];
    assert (url + suffix)[..|p|] == url[..|p|];
    assert StartsWith(url + suffix, p);
  }

  lemma IsRestrictedTabUrlExamples()
    ensures IsRestrictedTabUrl("https://chrome.google.com/webstore/detail/x")
    ensures IsRestrictedTabUrl("about:blank")
  {
    assert StartsWith("https://chrome.google.com/webstore/detail/x", "https://chrome.google.com/webstore");
    assert StartsWith("about:blank", "about:");
  }

  /** Neither an ordinary site nor the old store's root is restricted. */
  lemma UnrestrictedExamples()
    ensures !IsRestrictedTabUrl("https://chrome.google.com/")
    ensures !IsRestrictedTabUrl("https://example.com")
  {
    OnlyHttpsPrefixesLeft("https://chrome.google.com/");
    OnlyHttpsPrefixesLeft("https://example.com");
    var u := "https://chrome.google.com/";
    assert !StartsWith(u, "https://chrome.google.com/webstore");
    DiffersAt(u, "https://chromewebstore.google.com", 14);
    var v := "https://example.com";
    DiffersAt(v, "https://chrome.google.com/webstore", 8);
    DiffersAt(v, "https://chromewebstore.google.com", 8);
  }

  /** A URL starting with `https` can only match the two store prefixes. */
  lemma OnlyHttpsPrefixesLeft(url: string)
    requires |url| > 0 && url[0] == 'h'
    ensures IsRestrictedTabUrl(url) <==>
              StartsWith(url, "https://chrome.google.com/webstore") || StartsWith(url, "https://chromewebstore.google.com")
  {
    DiffersAt(url, "chrome://", 0);
    DiffersAt(url, "chrome-extension://", 0);
    DiffersAt(url, "devtools://", 0);
    DiffersAt(url, "about:", 0);
    DiffersAt(url, "view-source:", 0);
    DiffersAt(url, "edge://", 0);
    DiffersAt(url, "file://", 0);
  }

  /** The message shown on the button for a page the picker cannot reach. */
  const RestrictedPageMessage: string := "Pixie can't access this page"
  const ChromePagesMessage: string := "Pixie can't access Chrome pages"
  const LocalPagesMessage: string := "Pixie can't access local pages"

  /** The active tab as the popup sees it: its `url` property may be missing or not a string. */
  datatype Tab = Tab(url: Option<Json>)

  /** What the popup puts in the button container. */
  datatype PickerButton = Disabled(message: string) | Enabled

  /** The URL of the tab when it is a string. */
  function TabUrl(activeTab: Option<Tab>): (u: Option<string>)
    ensures u.Some? <==> activeTab.Some? && activeTab.value.url.Some? && activeTab.value.url.value.JString?
    ensures u.Some? ==> u.value == activeTab.value.url.value.s
  {
    if activeTab.Some? && activeTab.value.url.Some? && activeTab.value.url.value.JString?
    then Some(activeTab.value.url.value.s) else None
  }

  /** The if/else chain that decides the button for the active tab. */
  function PickerButtonFor(activeTab: Option<Tab>): (b: PickerButton)
    ensures TabUrl(activeTab).None? ==> b == Disabled(RestrictedPageMessage)
    ensures TabUrl(activeTab).Some? ==>
              var url := TabUrl(activeTab).value;
              && (StartsWith(url, "chrome") ==> b == Disabled(ChromePagesMessage))
              && (!StartsWith(url, "chrome") && StartsWith(url, "file") ==> b == Disabled(LocalPagesMessage))
              && (!StartsWith(url, "chrome") && !StartsWith(url, "file") && IsRestrictedTabUrl(url) ==>
                    b == Disabled(RestrictedPageMessage))
    ensures b == Enabled <==>
              && TabUrl(activeTab).Some?
              && !StartsWith(TabUrl(activeTab).value, "chrome")
              && !StartsWith(TabUrl(activeTab).value, "file")
              && !IsRestrictedTabUrl(TabUrl(activeTab).value)
  {
    var url := TabUrl(activeTab);
    if url.None? then Disabled(RestrictedPageMessage)
    else if StartsWith(url.value, "chrome") then Disabled(ChromePagesMessage)
    else if StartsWith(url.value, "file") then Disabled(LocalPagesMessage)
    else if IsRestrictedTabUrl(url.value) then Disabled(RestrictedPageMessage)
    else Enabled
  }

  /**
   * The `chrome` test comes first, so `chrome://` and `chrome-extension://`
   * pages get the Chrome message, and `file://` pages the local one, not
   * the generic restricted message.
   */
  lemma ChromeAndFileTakePrecedence(rest: string)
    ensures PickerButtonFor(Some(Tab(Some(JString("chrome://" + rest))))) == Disabled(ChromePagesMessage)
    ensures PickerButtonFor(Some(Tab(Some(JString("chrome-extension://" + rest))))) == Disabled(ChromePagesMessage)
    ensures PickerButtonFor(Some(Tab(Some(JString("file://" + rest))))) == Disabled(LocalPagesMessage)
  {
    assert StartsWith("chrome://" + rest, "chrome") by {
      assert ("chrome://" + rest)[..6] == "chrome";
    }
    assert StartsWith("chrome-extension://" + rest, "chrome") by {
      assert ("chrome-extension://" + rest)[..6] == "chrome";
    }
    assert StartsWith("file://" + rest, "file") by {
      assert ("file://" + rest)[..4] == "file";
    }
    assert !StartsWith("file://" + rest, "chrome") by {
      assert ("file://" + rest)[0] == 'f';
    }
  }

  /** A missing tab, a missing URL and a URL that is not a string all get the generic message. */
  lemma NoUsableUrl(url: Json)
    requires !url.JString?
    ensures PickerButtonFor(None) == Disabled(RestrictedPageMessage)
    ensures PickerButtonFor(Some(Tab(None))) == Disabled(RestrictedPageMessage)
    ensures PickerButtonFor(Some(Tab(Some(url)))) == Disabled(RestrictedPageMessage)
  {
  }

  /**
   * A string URL that gets the generic message starts with one of the
   * restricted prefixes other than the chrome and file ones.
   */
  lemma GenericMessagePrefixes(url: string)
    requires PickerButtonFor(Some(Tab(Some(JString(url))))) == Disabled(RestrictedPageMessage)
    ensures exists i :: 2 <= i < |RestrictedPrefixes| && i != 6 && StartsWith(url, RestrictedPrefixes[i])
  {
    var i :| 0 <= i < |RestrictedPrefixes| && StartsWith(url, RestrictedPrefixes[i]);
    assert i != 0 && i != 1 && i != 6;
  }

  lemma PickerButtonExamples()
    ensures PickerButtonFor(Some(Tab(Some(JString("https://example.com"))))) == Enabled
    ensures PickerButtonFor(Some(Tab(Some(JString("https://chromewebstore.google.com/x")))))
         == Disabled(RestrictedPageMessage)
  {
    UnrestrictedExamples();
    var u := "https://example.com";
    DiffersAt(u, "chrome", 0);
    DiffersAt(u, "file", 0);
    var w := "https://chromewebstore.google.com/x";
    DiffersAt(w, "chrome", 0);
    DiffersAt(w, "file", 0);
    assert StartsWith(w, "https://chromewebstore.google.com");
  }
}
