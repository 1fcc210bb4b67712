/** One rendered bookmark: the domain it shows and its delete button. */
module BookmarkItem {
  import opened Records
  import opened Strings

  /** The text `getDomain` removes, wherever it first occurs in the hostname. */
  const Www: string := "www."

  /** `getDomain`: `hostOf` stands for `new URL(url).hostname`, None where
      the constructor throws. An unparseable URL is shown as it is; otherwise
      the hostname loses the first "www." it contains, wherever that is. */
  function GetDomain(hostOf: string -> Option<string>, url: string): (d: string)
    ensures hostOf(url).None? ==> d == url
    ensures hostOf(url).Some? ==> |d| <= |hostOf(url).value|
    ensures hostOf(url).Some? && IndexOf(hostOf(url).value, Www).None? ==> d == hostOf(url).value
    ensures hostOf(url).Some? && IndexOf(hostOf(url).value, Www).Some? ==>
              var host, i := hostOf(url).value, IndexOf(hostOf(url).value, Www).value;
              |d| == |host| - 4 && d[..i] + Www + d[i..] == host
  {
    match hostOf(url)
    case None => url
    case Some(host) =>
      var d := ReplaceFirst(host, Www, "");
      if IndexOf(host, Www).Some? then
        var i := IndexOf(host, Www).value;
        assert host == host[..i] + host[i..i + 4] + host[i + 4..];
        assert d[..i] == host[..i] && d[i..] == host[i + 4..];
        d
      else d
  }

  /** Only the first "www." goes: a hostname with two keeps the second. */
  lemma OnlyFirstWwwRemoved(hostOf: string -> Option<string>, url: string)
    requires hostOf(url) == Some("www.www.example.com")
    ensures GetDomain(hostOf, url) == "www.example.com"
  {
    assert OccursAt("www.www.example.com", Www, 0);
  }

  /** The occurrence need not be a prefix: "mywww.site" loses its middle. */
  lemma WwwRemovedAnywhere(hostOf: string -> Option<string>, url: string)
    requires hostOf(url) == Some("mywww.site")
    ensures GetDomain(hostOf, url) == "mysite"
  {
    var s := "mywww.site";
    assert !OccursAt(s, Www, 0) by { assert s[0] != 'w'; }
    assert !OccursAt(s, Www, 1) by { assert s[1] != 'w'; }
    assert OccursAt(s, Www, 2);
    assert IndexOfFrom(s, Www, 2) == Some(2);
    assert IndexOfFrom(s, Www, 1) == Some(2);
    assert IndexOf(s, Www) == Some(2);
    assert s[..2] == "my" && s[6..] == "site";
    assert ReplaceFirst(s, Www, "") == "my" + "" + "site";
  }

  /** What the delete button shows. */
  datatype Button = Button(disabled: bool, spinner: bool)

  class ItemState {
    const bookmark: Bookmark
    var deleting: bool

    constructor (bookmark: Bookmark)
      ensures this.bookmark == bookmark && !deleting
    {
      this.bookmark := bookmark;
      deleting := false;
    }

    /** `handleDelete` up to its request: declining the confirmation issues
        nothing and changes nothing; confirming sets `deleting` and asks the
        store to delete this row's identifier. */
    method HandleDelete(confirmed: bool) returns (request: Option<string>)
      modifies this`deleting
      ensures !confirmed ==> request == None && deleting == old(deleting)
      ensures confirmed ==> request == Some(bookmark.id) && deleting
    {
      if !confirmed {
        return None;
      }
      deleting := true;
      request := Some(bookmark.id);
    }

    /** `handleDelete` once the store has answered: an error re-enables the
        button; success leaves it disabled, since the row goes away only when
        the list receives the DELETE event. */
    method CompleteDelete(outcome: Outcome)
      modifies this`deleting
      ensures outcome.Failure? ==> !deleting
      ensures outcome.Success? ==> deleting == old(deleting)
    {
      if outcome.Failure? {
        deleting := false;
      }
    }

    /** The button is disabled, and shows a spinner, exactly while deleting. */
    function View(): (b: Button)
      reads this
      ensures b.disabled <==> deleting
      ensures b.spinner <==> deleting
    {
      Button(deleting, deleting)
    }
  }

  /** A confirmed delete that succeeds leaves the button disabled; one that
      fails enables it again; a declined one never disables it. */
  method DeleteScenarios(b: Bookmark)
  {
    var item := new ItemState(b);
    var request := item.HandleDelete(false);
    assert request == None && !item.View().disabled;
    request := item.HandleDelete(true);
    assert request == Some(b.id) && item.View().disabled;
    item.CompleteDelete(Failure("permission denied"));
    assert !item.View().disabled;
    request := item.HandleDelete(true);
    item.CompleteDelete(Success);
    assert item.View().disabled && item.View().spinner;
  }
}
