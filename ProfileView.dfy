/** The profile page: the avatar initials and the name form's submit. */
module ProfileView {
  import opened Wrappers
  import opened Text
  import opened FormErrors
  import opened Seqs

  /** `n[0]` joined into a string: the first character of a part, or nothing for an empty part. */
  function Initial(part: string): string
  {
    if part == "" then "" else [part[0]]
  }

  /** The parts that have a first character. */
  function NonEmptyPart(): string -> bool
  {
    (part: string) => part != ""
  }

  /** `parts.map((n) => n[0]).join("")`. */
  function Initials(parts: seq<string>): (r: string)
    ensures |r| <= |parts|
  {
    if parts == [] then "" else Initial(parts[0]) + Initials(parts[1..])
  }

  /** The initials are the first characters of the non-empty parts, in order; an empty part contributes nothing. */
  lemma {:induction false} InitialsSpec(parts: seq<string>)
    ensures |Initials(parts)| == |Filter(parts, NonEmptyPart())|
    ensures forall k :: 0 <= k < |Initials(parts)| ==>
              Filter(parts, NonEmptyPart())[k] != "" && Initials(parts)[k] == Filter(parts, NonEmptyPart())[k][0]
  {
    if parts != [] {
      InitialsSpec(parts[1..]);
      assert parts == [parts[0]] + parts[1..];
      var f, tf := Filter(parts, NonEmptyPart()), Filter(parts[1..], NonEmptyPart());
      var r, tr := Initials(parts), Initials(parts[1..]);
      if parts[0] == "" {
        assert f == tf && r == tr;
      } else {
        assert f == [parts[0]] + tf && r == [parts[0][0]] + tr;
        forall k | 0 < k < |r|
          ensures f[k] != "" && r[k] == f[k][0]
        {
          assert f[k] == tf[k - 1] && r[k] == tr[k - 1];
        }
      }
    }
  }

  /** Position `i` of `s` starts a word: a non-space character at the start or after a space. */
  predicate IsWordStart(s: string, i: nat)
    requires i < |s|
  {
    s[i] != ' ' && (i == 0 || s[i - 1] == ' ')
  }

  /** The characters of `s` at word starts from position `i` on, in order. */
  function WordStartsFrom(s: string, i: nat): string
    requires i <= |s|
    decreases |s| - i
  {
    if i == |s| then ""
    else (if IsWordStart(s, i) then [s[i]] else "") + WordStartsFrom(s, i + 1)
  }

  /** The first letter of every space-separated word of `s`, in order. */
  function WordStarts(s: string): string
  {
    WordStartsFrom(s, 0)
  }

  /**
   * Splitting the rest of `s` from position `i` at spaces and taking the initials gives the word
   * starts from `i` on; when `i` is inside a word, the word's first part is dropped.
   */
  lemma {:induction false} InitialsOfSplitFrom(s: string, i: nat)
    requires i <= |s|
    ensures (i == 0 || s[i - 1] == ' ') ==> Initials(Split(s[i..], ' ')) == WordStartsFrom(s, i)
    ensures (0 < i && s[i - 1] != ' ') ==> Initials(Split(s[i..], ' ')[1..]) == WordStartsFrom(s, i)
    decreases |s| - i
  {
    if i < |s| {
      InitialsOfSplitFrom(s, i + 1);
      var t := s[i..];
      assert t[1..] == s[i + 1..] && t[0] == s[i];
      var rest := Split(s[i + 1..], ' ');
      if s[i] == ' ' {
        assert Split(t, ' ') == [""] + rest;
        assert Split(t, ' ')[1..] == rest;
      } else {
        var parts := Split(t, ' ');
        assert parts == [[s[i]] + rest[0]] + rest[1..];
        assert parts[1..] == rest[1..];
        assert Initials(parts) == [s[i]] + Initials(rest[1..]);
      }
    } else {
      assert s[i..] == "";
      assert Split(s[i..], ' ') == [""];
    }
  }

  /** The split-and-map of `getInitials` picks exactly the first letter of every word. */
  lemma InitialsOfSplit(s: string)
    ensures Initials(Split(s, ' ')) == WordStarts(s)
  {
    InitialsOfSplitFrom(s, 0);
    assert s[0..] == s;
  }

  /** `u.slice(0, 2)`. */
  function FirstTwo(u: string): (r: string)
    ensures |r| == if |u| <= 2 then |u| else 2
    ensures IsPrefix(r, u)
  {
    if |u| <= 2 then u else u[..2]
  }

  /**
   * The avatar fallback text for a profile name: "U" for an absent or empty name, otherwise the
   * first two word starts, upper-cased.
   */
  function GetInitials(name: Option<string>): (r: string)
    ensures |r| <= 2
    ensures name.None? || name == Some("") ==> r == "U"
    ensures name.Some? && name.value != "" ==> r == FirstTwo(Upper(WordStarts(name.value)))
  {
    if name.None? || name.value == "" then "U"
    else
      InitialsOfSplit(name.value);
      FirstTwo(Upper(Initials(Split(name.value, ' '))))
  }

  /** A string made only of separators splits into empty parts only. */
  lemma {:induction false} SplitOfSeparators(s: string, sep: char)
    requires forall i :: 0 <= i < |s| ==> s[i] == sep
    ensures forall k :: 0 <= k < |Split(s, sep)| ==> Split(s, sep)[k] == ""
  {
    if s != [] {
      SplitOfSeparators(s[1..], sep);
    }
  }

  lemma {:induction false} InitialsOfEmptyParts(parts: seq<string>)
    requires forall k :: 0 <= k < |parts| ==> parts[k] == ""
    ensures Initials(parts) == ""
  {
    if parts != [] {
      InitialsOfEmptyParts(parts[1..]);
    }
  }

  /** A non-empty name of spaces only has no initials at all (the fallback "U" is not used). */
  lemma SpacesOnlyHaveNoInitials(name: string)
    requires name != "" && forall i :: 0 <= i < |name| ==> name[i] == ' '
    ensures GetInitials(Some(name)) == ""
  {
    SplitOfSeparators(name, ' ');
    InitialsOfEmptyParts(Split(name, ' '));
  }

  /** Splitting at a first separator: the word before it, then the pieces of the rest. */
  lemma {:induction false} SplitAfterWord(word: string, sep: char, rest: string)
    requires sep !in word
    ensures Split(word + [sep] + rest, sep) == [word] + Split(rest, sep)
  {
    if word == [] {
      assert word + [sep] + rest == [sep] + rest;
      assert ([sep] + rest)[1..] == rest;
    } else {
      var s := word + [sep] + rest;
      assert s[1..] == word[1..] + [sep] + rest;
      SplitAfterWord(word[1..], sep, rest);
      assert [word[0]] + word[1..] == word;
    }
  }

  /** A separator-free string is one piece. */
  lemma {:induction false} SplitOfWord(word: string, sep: char)
    requires sep !in word
    ensures Split(word, sep) == [word]
  {
    if word != [] {
      SplitOfWord(word[1..], sep);
      assert [word[0]] + word[1..] == word;
    }
  }

  /** A first and a last name give the two upper-cased first letters. */
  lemma TwoWordInitials(first: string, last: string)
    requires first != "" && last != "" && ' ' !in first && ' ' !in last
    ensures GetInitials(Some(first + " " + last)) == [UpperChar(first[0]), UpperChar(last[0])]
  {
    SplitAfterWord(first, ' ', last);
    SplitOfWord(last, ' ');
    assert Initials([first, last]) == [first[0], last[0]];
  }

  /** Three words give only the first two initials: `slice(0, 2)` cuts the third. */
  lemma ThreeWordInitials(first: string, middle: string, last: string)
    requires first != "" && middle != "" && last != ""
    requires ' ' !in first && ' ' !in middle && ' ' !in last
    ensures GetInitials(Some(first + " " + middle + " " + last)) == [UpperChar(first[0]), UpperChar(middle[0])]
  {
    var name := first + " " + middle + " " + last;
    assert name == first + [' '] + (middle + [' '] + last);
    SplitAfterWord(first, ' ', middle + [' '] + last);
    SplitAfterWord(middle, ' ', last);
    SplitOfWord(last, ' ');
    assert Split(name, ' ') == [first, middle, last];
    assert [first, middle, last][1..] == [middle, last];
    assert Initials([middle, last]) == [middle[0], last[0]];
    assert Initials([first, middle, last]) == [first[0], middle[0], last[0]];
    var u := Upper([first[0], middle[0], last[0]]);
    assert u[..2] == [UpperChar(first[0]), UpperChar(middle[0])];
  }

  /** A leading space only adds an empty part, which contributes no initial. */
  lemma LeadingSpaceIgnored(name: string)
    requires name != ""
    ensures GetInitials(Some(" " + name)) == GetInitials(Some(name))
  {
    assert (" " + name)[1..] == name;
    assert Split(" " + name, ' ') == [""] + Split(name, ' ');
  }

  /** A name that does not start with a space has initials starting with its first letter, upper-cased. */
  lemma InitialsStartWithFirstLetter(name: string)
    requires name != "" && name[0] != ' '
    ensures GetInitials(Some(name)) != "" && GetInitials(Some(name))[0] == UpperChar(name[0])
  {
    var parts := Split(name, ' ');
    FirstTokenIsPrefix(name, ' ');
    assert parts[0] != "" by {
      assert parts[0] == name || name[|parts[0]|] == ' ';
    }
    assert Initials(parts)[0] == parts[0][0] == name[0];
  }

  const NameTooShort: string := "Name must be at least 2 characters"
  const NameTooLong: string := "Name is too long"

  /** The profile schema: a full name of 2 to 100 characters. */
  function ProfileIssues(fullName: string): seq<Issue>
  {
    MinLength("full_name", fullName, 2, NameTooShort) + MaxLength("full_name", fullName, 100, NameTooLong)
  }

  /** The schema accepts exactly the names of 2 to 100 characters, and every rejection is keyed by `full_name` alone. */
  lemma ProfileIssuesSpec(fullName: string)
    ensures ProfileIssues(fullName) == [] <==> 2 <= |fullName| <= 100
    ensures ProfileIssues(fullName) != [] ==>
              FieldErrors(ProfileIssues(fullName)) ==
                map["full_name" := if |fullName| < 2 then NameTooShort else NameTooLong]
    ensures ProfileIssues(fullName) != [] ==> FieldErrors(ProfileIssues(fullName)).Keys == {"full_name"}
  {
    if |fullName| < 2 {
      assert ProfileIssues(fullName) == [Issue(["full_name"], NameTooShort)];
      FieldErrorsSingle(Issue(["full_name"], NameTooShort));
    } else if |fullName| > 100 {
      assert ProfileIssues(fullName) == [Issue(["full_name"], NameTooLong)];
      FieldErrorsSingle(Issue(["full_name"], NameTooLong));
    }
  }

  /** What the form hands to the profile hook. */
  datatype ProfileUpdate = ProfileUpdate(fullName: string)

  /** The profile form's state. */
  class ProfileForm {
    var fullName: string
    var errors: map<string, string>
    var saving: bool

    constructor (initialName: Option<string>)
      ensures fullName == (if initialName.Some? then initialName.value else "")
      ensures errors == map[] && !saving
    {
      fullName := if initialName.Some? then initialName.value else "";
      errors := map[];
      saving := false;
    }

    /**
     * The submit: the trimmed name is validated; a rejected name only sets the field errors and
     * calls nothing; an accepted one clears the errors and sends exactly the trimmed name, with
     * `saving` back to false afterwards.
     */
    method HandleSubmit() returns (sent: Option<ProfileUpdate>)
      modifies this`errors, this`saving
      ensures sent.Some? <==> 2 <= |Trim(fullName)| <= 100
      ensures sent.Some? ==> sent.value == ProfileUpdate(Trim(fullName)) && errors == map[] && !saving
      ensures sent.None? ==> errors == FieldErrors(ProfileIssues(Trim(fullName))) && errors.Keys == {"full_name"}
      ensures sent.None? ==> saving == old(saving)
    {
      errors := map[];
      var trimmed := Trim(fullName);
      var issues := ProfileIssues(trimmed);
      ProfileIssuesSpec(trimmed);
      if issues != [] {
        var fieldErrors := CollectFieldErrors(issues);
        errors := fieldErrors;
        return None;
      }
      saving := true;
      sent := Some(ProfileUpdate(trimmed));
      saving := false;
    }
  }
}
