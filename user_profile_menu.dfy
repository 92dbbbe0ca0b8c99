/**
 * The profile menu in the header (components/UserProfileMenu.tsx): the user record built
 * from the account's metadata with its fallbacks, the initials badge shown when there is
 * no picture, and the open/closed state of the dropdown.
 */
module UserProfileMenu {
  import opened Types
  import opened Text

  /** JavaScript truthiness of an optional text: present and not empty. */
  predicate Truthy(s: Option<string>)
  {
    s.Some? && s.value != []
  }

  /** `a || b` for an optional text and a fallback text. */
  function OrElse(a: Option<string>, b: string): (r: string)
    ensures Truthy(a) ==> r == a.value
    ensures !Truthy(a) ==> r == b
  {
    if a.Some? && a.value != [] then a.value else b
  }

  /** What the account service reports about the signed-in user; a missing key is None. */
  datatype Metadata = Metadata(
    fullName: Option<string>,
    name: Option<string>,
    email: Option<string>,
    avatarUrl: Option<string>,
    picture: Option<string>)

  /** The record the menu renders from. */
  datatype UserInfo = UserInfo(name: string, email: string, avatarUrl: Option<string>)

  /** The record before the account has been read: empty texts and no picture. */
  const EmptyInfo := UserInfo([], [], None)

  /**
   * The record built from the metadata: the full name, else the name, else "User"; the
   * email or the empty text; the avatar URL, else the picture, else nothing.
   */
  function InfoOf(m: Metadata): (u: UserInfo)
    ensures u.name != []
    ensures Truthy(m.fullName) ==> u.name == m.fullName.value
    ensures !Truthy(m.fullName) && Truthy(m.name) ==> u.name == m.name.value
    ensures !Truthy(m.fullName) && !Truthy(m.name) ==> u.name == "User"
    ensures Truthy(m.email) ==> u.email == m.email.value
    ensures !Truthy(m.email) ==> u.email == []
    ensures u.avatarUrl.Some? <==> Truthy(m.avatarUrl) || Truthy(m.picture)
    ensures u.avatarUrl.Some? ==> u.avatarUrl.value != []
    ensures Truthy(m.avatarUrl) ==> u.avatarUrl == m.avatarUrl
    ensures !Truthy(m.avatarUrl) && Truthy(m.picture) ==> u.avatarUrl == m.picture
  {
    var avatar :=
      if Truthy(m.avatarUrl) then m.avatarUrl
      else if Truthy(m.picture) then m.picture
      else None;
    UserInfo(OrElse(m.fullName, OrElse(m.name, "User")), OrElse(m.email, []), avatar)
  }

  // ---------------------------------------------------------------- initials

  /** The first character of each word, `w[0]`, an empty word giving nothing. */
  function Heads(words: seq<string>): string
  {
    if |words| == 0 then []
    else (if words[0] == [] then [] else [words[0][0]]) + Heads(words[1..])
  }

  /**
   * getInitials: split on single spaces, keep each word's first character, upper-case,
   * and keep at most two characters.
   */
  function GetInitials(name: string): (r: string)
    ensures |r| <= 2
    ensures r == Prefix(ToUpper(WordStarts(name)), 2)
  {
    InitialsAreWordStarts(name);
    Prefix(ToUpper(Heads(Split(name, ' '))), 2)
  }

  /**
   * An independent reading of the same rule: scanning left to right, the non-space
   * characters that open the text or follow a space. `atStart` says the previous
   * character was a space (or there was none).
   */
  function ScanStarts(s: string, atStart: bool): string
  {
    if |s| == 0 then []
    else if s[0] == ' ' then ScanStarts(s[1..], true)
    else (if atStart then [s[0]] else []) + ScanStarts(s[1..], false)
  }

  function WordStarts(s: string): string
  {
    ScanStarts(s, true)
  }

  /** Both readings agree: before the first piece, and after it. */
  lemma {:induction false} HeadsOfSplit(s: string)
    ensures Heads(Split(s, ' ')) == ScanStarts(s, true)
    ensures Heads(Split(s, ' ')[1..]) == ScanStarts(s, false)
  {
    var parts := Split(s, ' ');
    if |s| > 0 {
      var rest := Split(s[1..], ' ');
      HeadsOfSplit(s[1..]);
      if s[0] == ' ' {
        assert parts == [""] + rest;
        assert parts[1..] == rest;
      } else {
        assert parts == [[s[0]] + rest[0]] + rest[1..];
        assert parts[1..] == rest[1..];
      }
    }
  }

  /** The initials are the first two word starts, upper-cased. */
  lemma InitialsAreWordStarts(name: string)
    ensures Prefix(ToUpper(Heads(Split(name, ' '))), 2) == Prefix(ToUpper(WordStarts(name)), 2)
  {
    HeadsOfSplit(name);
  }

  /** A doubled or leading space adds nothing: " jo  ann" gives "JA". */
  lemma EmptyWordsAddNothing()
    ensures GetInitials(" jo  ann") == "JA"
  {
    var s := " jo  ann";
    assert ScanStarts(s[5..], true) == "a" by {
      assert ScanStarts(s[6..], false) == [] by {
        assert ScanStarts(s[7..], false) == [];
      }
    }
    assert ScanStarts(s[4..], true) == "a";
    assert ScanStarts(s[3..], false) == "a";
    assert ScanStarts(s[2..], false) == "a";
    assert ScanStarts(s[1..], true) == "ja";
    assert WordStarts(s) == "ja";
    UpperJa();
  }

  lemma UpperJa()
    ensures Prefix(ToUpper("ja"), 2) == "JA"
  {
    var u := ToUpper("ja");
    assert u[0] == UpperChar('j') == 'J' && u[1] == UpperChar('a') == 'A';
    assert u == "JA";
  }

  /** A text has no word starts exactly when it is all spaces. */
  lemma {:induction false} NoStartsIffSpaces(s: string)
    ensures WordStarts(s) == [] <==> forall i :: 0 <= i < |s| ==> s[i] == ' '
  {
    if |s| > 0 && s[0] == ' ' {
      NoStartsIffSpaces(s[1..]);
      assert forall i :: 1 <= i < |s| ==> s[i] == s[1..][i - 1];
    }
  }

  /** The text inside the badge: the initials of the name, or of "U" when the name is empty. */
  function BadgeText(info: UserInfo): (r: string)
    ensures info.name == [] ==> r == "U"
    ensures info.name != [] ==> r == GetInitials(info.name)
  {
    assert Split("U", ' ') == ["U"] by { SplitWithoutSeparator("U", ' '); }
    GetInitials(if info.name == [] then "U" else info.name)
  }

  /** The badge is empty only for a name made of spaces alone. */
  lemma BadgeEmptyIffBlankName(info: UserInfo)
    ensures BadgeText(info) == [] <==> info.name != [] && forall i :: 0 <= i < |info.name| ==> info.name[i] == ' '
  {
    if info.name != [] {
      InitialsAreWordStarts(info.name);
      NoStartsIffSpaces(info.name);
    }
  }

  /** What the avatar button shows: the picture when there is one, else the initials badge. */
  datatype Avatar = Picture(url: string) | Initials(text: string)

  function AvatarOf(info: UserInfo): (a: Avatar)
    ensures a.Picture? <==> info.avatarUrl.Some? && info.avatarUrl.value != []
    ensures a.Picture? ==> a.url == info.avatarUrl.value
    ensures a.Initials? ==> a.text == BadgeText(info)
  {
    if info.avatarUrl.Some? && info.avatarUrl.value != [] then Picture(info.avatarUrl.value)
    else Initials(BadgeText(info))
  }

  // ---------------------------------------------------------------- the dropdown

  /**
   * The menu component: whether the dropdown is open, and the user record. The key and
   * outside-click listeners exist only while the dropdown is open.
   */
  class Menu {
    var isOpen: bool
    var userInfo: UserInfo

    constructor ()
      ensures !isOpen && userInfo == EmptyInfo
    {
      isOpen := false;
      userInfo := EmptyInfo;
    }

    /** The account lookup on mount: a signed-in user replaces the record, otherwise nothing changes. */
    method LoadUser(user: Option<Metadata>)
      modifies this
      ensures isOpen == old(isOpen)
      ensures userInfo == if user.Some? then InfoOf(user.value) else old(userInfo)
    {
      if user.Some? {
        userInfo := InfoOf(user.value);
      }
    }

    /** A click on the avatar opens a closed menu and closes an open one. */
    method ToggleAvatar()
      modifies this
      ensures isOpen == !old(isOpen) && userInfo == old(userInfo)
    {
      isOpen := !isOpen;
    }

    /** A key press: Escape closes an open menu; any other key, or a closed menu, changes nothing. */
    method KeyDown(key: string)
      modifies this
      ensures isOpen == (old(isOpen) && key != "Escape") && userInfo == old(userInfo)
    {
      if isOpen && key == "Escape" {
        isOpen := false;
      }
    }

    /** A mouse press: outside the menu it closes an open menu; inside it changes nothing. */
    method MouseDown(inside: bool)
      modifies this
      ensures isOpen == (old(isOpen) && inside) && userInfo == old(userInfo)
    {
      if isOpen && !inside {
        isOpen := false;
      }
    }
  }
}
