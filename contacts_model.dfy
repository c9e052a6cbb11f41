/** Values of the contacts store (src/stores/contacts.js) and the pure parts of
    its logic: placeholder expansion, phone formatting, the group getters and the
    ordering of scheduled messages. Times are milliseconds since the epoch. */
module ContactsModel {
  import opened Seqs
  import opened Text

  /** A stored contact; an absent phone is the empty string. */
  datatype Contact = Contact(id: int, name: string, phone: string, group: string, createdAt: nat)

  /** What the contact form hands to `addContact`; an empty group means none was given. */
  datatype ContactForm = ContactForm(name: string, phone: string, group: string)

  /** The fields an `updateContact` call carries; `None` marks a field it does not set. */
  datatype ContactPatch = ContactPatch(
    id: Option<int>, name: Option<string>, phone: Option<string>,
    group: Option<string>, createdAt: Option<nat>)

  /** A `scheduledMessages` entry. */
  datatype ScheduledMessage = ScheduledMessage(
    id: int, group: string, message: string, scheduledTime: int, status: string)

  /** The `securitySettings` object. */
  datatype Settings = Settings(
    delayBetweenMessages: nat,
    maxMessagesPerMinute: nat,
    allowedStart: int,
    allowedEnd: int,
    maxRetries: nat,
    cooldownPeriod: nat)

  function DefaultSettings(): Settings {
    Settings(3000, 20, 8, 20, 3, 24 * 60 * 60 * 1000)
  }

  const DefaultGroup: string := "Geral"
  const CountryCode: string := "55"
  const ContactSuffix: string := "@c.us"

  // ---------------------------------------------------------------------------
  // Contact list operations

  /** The record `addContact` pushes. */
  function NewContact(form: ContactForm, id: int, createdAt: nat): (c: Contact)
    ensures c.id == id && c.createdAt == createdAt
    ensures c.name == form.name && c.phone == form.phone
    ensures c.group != ""
    ensures c.group == form.group || (form.group == "" && c.group == DefaultGroup)
  {
    Contact(id, form.name, form.phone, if form.group != "" then form.group else DefaultGroup, createdAt)
  }

  /** `{ ...contact, ...patch }`. */
  function ApplyContactPatch(c: Contact, p: ContactPatch): Contact {
    Contact(p.id.GetOr(c.id), p.name.GetOr(c.name), p.phone.GetOr(c.phone),
            p.group.GetOr(c.group), p.createdAt.GetOr(c.createdAt))
  }

  function HasContactId(id: int): Contact -> bool {
    (c: Contact) => c.id == id
  }

  function LacksContactId(id: int): Contact -> bool {
    (c: Contact) => c.id != id
  }

  function InGroup(group: string): Contact -> bool {
    (c: Contact) => c.group == group
  }

  /** `removeContact`: keep the contacts whose id differs. */
  function WithoutContact(cs: seq<Contact>, id: int): (r: seq<Contact>)
    ensures forall c :: c in r <==> c in cs && c.id != id
    ensures forall c :: multiset(r)[c] == if c.id != id then multiset(cs)[c] else 0
    ensures (forall j :: 0 <= j < |cs| ==> cs[j].id != id) ==> r == cs
  {
    var r := Filter(cs, LacksContactId(id));
    forall c | c in cs && c.id != id ensures c in r {
      assert multiset(cs)[c] > 0;
    }
    if forall j :: 0 <= j < |cs| ==> cs[j].id != id then
      FilterKeepsAll(cs, LacksContactId(id)); r
    else r
  }

  /** `updateContact`: merge the patch into the first contact with that id;
      the list is unchanged when no contact has it. */
  function UpdatedContacts(cs: seq<Contact>, id: int, p: ContactPatch): (r: seq<Contact>)
    ensures |r| == |cs|
    ensures (forall j :: 0 <= j < |cs| ==> cs[j].id != id) ==> r == cs
    ensures forall k :: 0 <= k < |cs| && cs[k].id == id && (forall j :: 0 <= j < k ==> cs[j].id != id) ==>
      r[k] == ApplyContactPatch(cs[k], p) && forall j :: 0 <= j < |cs| && j != k ==> r[j] == cs[j]
  {
    ReplaceFirst(cs, HasContactId(id), (c: Contact) => ApplyContactPatch(c, p)).GetOr(cs)
  }

  /** `getContactsByGroup`: the contacts of one group, in stored order. */
  function ContactsByGroup(cs: seq<Contact>, group: string): (r: seq<Contact>)
    ensures forall c :: c in r <==> c in cs && c.group == group
    ensures forall c :: multiset(r)[c] == if c.group == group then multiset(cs)[c] else 0
  {
    var r := Filter(cs, InGroup(group));
    forall c | c in cs && c.group == group ensures c in r {
      assert multiset(cs)[c] > 0;
    }
    r
  }

  /** Appending a contact appends it to its own group and leaves every other
      group's list as it was. */
  lemma AddedContactJoinsItsGroup(cs: seq<Contact>, c: Contact, group: string)
    ensures ContactsByGroup(cs + [c], group) ==
      if c.group == group then ContactsByGroup(cs, group) + [c] else ContactsByGroup(cs, group)
  {
    FilterAppend(cs, [c], InGroup(group));
    assert Filter([c], InGroup(group)) == (if c.group == group then [c] else []) + Filter([], InGroup(group));
  }

  /** Removing keeps the order of the contacts that stay: removing from a
      concatenation removes from each part. */
  lemma WithoutContactKeepsOrder(a: seq<Contact>, b: seq<Contact>, id: int)
    ensures WithoutContact(a + b, id) == WithoutContact(a, id) + WithoutContact(b, id)
  {
    FilterAppend(a, b, LacksContactId(id));
  }

  /** Removing the id of a contact just added, when no earlier contact had it,
      gives back the list from before the addition. */
  lemma RemoveUndoesAdd(cs: seq<Contact>, form: ContactForm, id: int, createdAt: nat)
    requires forall j :: 0 <= j < |cs| ==> cs[j].id != id
    ensures WithoutContact(cs + [NewContact(form, id, createdAt)], id) == cs
  {
    var c := NewContact(form, id, createdAt);
    FilterAppend(cs, [c], LacksContactId(id));
    FilterKeepsAll(cs, LacksContactId(id));
    assert Filter([c], LacksContactId(id)) == [] + Filter([], LacksContactId(id));
  }

  function LacksMessageId(id: int): ScheduledMessage -> bool {
    (m: ScheduledMessage) => m.id != id
  }

  /** `cancelScheduledMessage`: keep the scheduled messages whose id differs,
      in their order. */
  function WithoutScheduled(ms: seq<ScheduledMessage>, id: int): (r: seq<ScheduledMessage>)
    ensures forall m :: m in r <==> m in ms && m.id != id
    ensures forall m :: multiset(r)[m] == if m.id != id then multiset(ms)[m] else 0
  {
    var r := Filter(ms, LacksMessageId(id));
    forall m | m in ms && m.id != id ensures m in r {
      assert multiset(ms)[m] > 0;
    }
    r
  }

  /** Cancelling keeps the order of the messages that stay: removing from a
      concatenation removes from each part. */
  lemma WithoutScheduledKeepsOrder(a: seq<ScheduledMessage>, b: seq<ScheduledMessage>, id: int)
    ensures WithoutScheduled(a + b, id) == WithoutScheduled(a, id) + WithoutScheduled(b, id)
  {
    FilterAppend(a, b, LacksMessageId(id));
  }

  /** `getGroups`: the distinct group labels, in order of first appearance. */
  function Groups(cs: seq<Contact>): (r: seq<string>)
    ensures forall g :: g in r <==> exists i :: 0 <= i < |cs| && cs[i].group == g
    ensures forall i, j :: 0 <= i < j < |r| ==> r[i] != r[j]
    decreases |cs|
  {
    if cs == [] then []
    else
      var init := cs[..|cs| - 1];
      var rest := Groups(init);
      var g := cs[|cs| - 1].group;
      assert forall i :: 0 <= i < |init| ==> init[i] == cs[i];
      if g in rest then rest else rest + [g]
  }

  // ---------------------------------------------------------------------------
  // Template expansion: `message.replace(/\{(\w+)\}/g, ...)`

  /** Length of the run of `\w` characters that starts `s`. */
  function WordRun(s: string): (n: nat)
    ensures n <= |s|
    ensures forall i :: 0 <= i < n ==> IsWordChar(s[i])
    ensures n < |s| ==> !IsWordChar(s[n])
    decreases |s|
  {
    if s != [] && IsWordChar(s[0]) then 1 + WordRun(s[1..]) else 0
  }

  /** The tag name when `s` starts with a match of `\{(\w+)\}`. */
  function TagAt(s: string): (r: Option<string>)
    ensures r.Some? ==> 0 < |r.value| && |r.value| + 2 <= |s|
  {
    if |s| > 0 && s[0] == '{' then
      var n := WordRun(s[1..]);
      if n > 0 && n + 1 < |s| && s[n + 1] == '}' then Some(s[1..n + 1]) else None
    else None
  }

  /** The replacement for one match: the tag name is compared in lower case,
      an unknown tag gives back the whole match. */
  function TagValue(tag: string, c: Contact): string {
    var key := Lower(tag);
    if key == "nome" then c.name
    else if key == "telefone" then c.phone
    else if key == "grupo" then c.group
    else "{" + tag + "}"
  }

  /** `processMessageTags`: replace every match, scanning left to right; a
      replacement is not scanned again. */
  function ExpandTags(template: string, c: Contact): string
    decreases |template|
  {
    if template == [] then []
    else
      match TagAt(template)
      case Some(tag) => TagValue(tag, c) + ExpandTags(template[|tag| + 2..], c)
      case None => [template[0]] + ExpandTags(template[1..], c)
  }

  /** A first character that is not a brace is copied unchanged. */
  lemma ExpandPlainChar(s: string, c: Contact)
    requires s != [] && s[0] != '{'
    ensures ExpandTags(s, c) == [s[0]] + ExpandTags(s[1..], c)
  {
    assert TagAt(s) == None;
  }

  lemma ExpandPlainStep(x: char, rest: string, c: Contact)
    requires x != '{'
    ensures ExpandTags([x] + rest, c) == [x] + ExpandTags(rest, c)
  {
    ExpandPlainChar([x] + rest, c);
    assert ([x] + rest)[1..] == rest;
  }

  /** Splitting off the first character of a non-empty prefix. */
  lemma SplitFirst(a: string, b: string)
    requires a != []
    ensures a + b == [a[0]] + (a[1..] + b)
    ensures [a[0]] + (a[1..] + b) == a + b
    ensures '{' !in a ==> a[0] != '{' && '{' !in a[1..]
  {
    assert a == [a[0]] + a[1..];
  }

  /** Text before the first brace is copied unchanged. */
  lemma {:induction false} ExpandPlainPrefix(a: string, b: string, c: Contact)
    requires '{' !in a
    ensures ExpandTags(a + b, c) == a + ExpandTags(b, c)
    decreases |a|
  {
    if a == [] {
      assert a + b == b;
    } else {
      SplitFirst(a, b);
      ExpandPlainPrefix(a[1..], b, c);
      ExpandPlainStep(a[0], a[1..] + b, c);
      SplitFirst(a, ExpandTags(b, c));
    }
  }

  /** A `{` that does not open a `{word}` match (no word characters after it,
      or no `}` right after them) is copied, and the scan goes on after it. */
  lemma ExpandUnmatchedBrace(s: string, c: Contact)
    requires s != [] && s[0] == '{'
    requires var n := WordRun(s[1..]); n == 0 || n + 1 >= |s| || s[n + 1] != '}'
    ensures ExpandTags(s, c) == [s[0]] + ExpandTags(s[1..], c)
  {
    assert TagAt(s) == None;
  }

  /** A template without braces is its own expansion. */
  lemma ExpandWithoutBraces(s: string, c: Contact)
    requires '{' !in s
    ensures ExpandTags(s, c) == s
  {
    ExpandPlainPrefix(s, [], c);
    assert s + [] == s;
  }

  /** A `{tag}` at the front is replaced by the contact's name, phone or group
      when the tag is `nome`, `telefone` or `grupo` in any letter case, and is
      kept verbatim, braces included, otherwise. */
  lemma ExpandTagAtFront(tag: string, rest: string, c: Contact)
    requires |tag| > 0 && forall i :: 0 <= i < |tag| ==> IsWordChar(tag[i])
    ensures Lower(tag) == "nome" ==> ExpandTags("{" + tag + "}" + rest, c) == c.name + ExpandTags(rest, c)
    ensures Lower(tag) == "telefone" ==> ExpandTags("{" + tag + "}" + rest, c) == c.phone + ExpandTags(rest, c)
    ensures Lower(tag) == "grupo" ==> ExpandTags("{" + tag + "}" + rest, c) == c.group + ExpandTags(rest, c)
    ensures Lower(tag) != "nome" && Lower(tag) != "telefone" && Lower(tag) != "grupo" ==>
      ExpandTags("{" + tag + "}" + rest, c) == "{" + tag + "}" + ExpandTags(rest, c)
  {
    var s := "{" + tag + "}" + rest;
    WordRunOfWord(tag, "}" + rest);
    assert s[1..] == tag + ("}" + rest);
    assert s[|tag| + 1] == '}';
    assert s[1..|tag| + 1] == tag;
    assert TagAt(s) == Some(tag);
    assert s[|tag| + 2..] == rest;
  }

  /** The run of word characters stops at the first non-word character. */
  lemma {:induction false} WordRunOfWord(w: string, rest: string)
    requires forall i :: 0 <= i < |w| ==> IsWordChar(w[i])
    requires rest != [] && !IsWordChar(rest[0])
    ensures WordRun(w + rest) == |w|
    decreases |w|
  {
    if w == [] {
      assert w + rest == rest;
    } else {
      assert (w + rest)[1..] == w[1..] + rest;
      WordRunOfWord(w[1..], rest);
    }
  }

  /** An instance: the tag name is matched in any letter case. */
  lemma ExpandExample(template: string, c: Contact)
    requires template == "Oi {NOME}"
    ensures ExpandTags(template, c) == "Oi " + c.name
  {
    var tag := "NOME";
    assert Lower(tag) == "nome" by {
      assert tag == ['N'] + "OME" && "OME" == ['O'] + "ME" && "ME" == ['M'] + "E";
    }
    ExpandTagAtFront(tag, "", c);
    var front := "{" + tag + "}" + "";
    assert ExpandTags(front, c) == c.name;
    assert '{' !in "Oi ";
    ExpandPlainPrefix("Oi ", front, c);
    assert template == "Oi " + front;
  }

  /** An instance: an unknown tag is left as it is, braces included. */
  lemma ExpandUnknownExample(template: string, c: Contact)
    requires template == "{foo}"
    ensures ExpandTags(template, c) == template
  {
    assert Lower("foo") == "foo";
    ExpandTagAtFront("foo", "", c);
    assert "{foo}" == "{" + "foo" + "}" + "";
  }

  /** A brace right before a `{tag}` opens no match: it is kept, and the tag
      after it is expanded as usual. */
  lemma ExpandBraceBeforeTag(tag: string, rest: string, c: Contact)
    requires |tag| > 0 && forall i :: 0 <= i < |tag| ==> IsWordChar(tag[i])
    ensures ExpandTags("{" + "{" + tag + "}" + rest, c) == "{" + ExpandTags("{" + tag + "}" + rest, c)
  {
    var s := "{" + "{" + tag + "}" + rest;
    assert s[1..] == "{" + tag + "}" + rest;
    assert !IsWordChar(s[1]);
    assert WordRun(s[1..]) == 0;
    ExpandUnmatchedBrace(s, c);
  }

  // ---------------------------------------------------------------------------
  // Phone formatting in `sendMessageToContact`

  /** Strip non-digits, prepend the country code unless present, append the
      contact suffix unless present. */
  function FormatNumber(phone: string): string {
    var digits := Digits(phone);
    var national := if StartsWith(digits, CountryCode) then digits else CountryCode + digits;
    if EndsWith(national, ContactSuffix) then national else national + ContactSuffix
  }

  /** The formatted number is the digits of the phone, with "55" in front exactly
      when they did not already start with it, followed by one "@c.us". */
  lemma FormatNumberShape(phone: string)
    ensures var r := FormatNumber(phone);
      var digits := Digits(phone);
      && |r| >= |CountryCode| + |ContactSuffix|
      && r == (if StartsWith(digits, CountryCode) then digits else CountryCode + digits) + ContactSuffix
      && AllDigits(r[..|r| - |ContactSuffix|])
      && StartsWith(r, CountryCode)
      && EndsWith(r, ContactSuffix)
  {
    var digits := Digits(phone);
    var national := if StartsWith(digits, CountryCode) then digits else CountryCode + digits;
    assert AllDigits(national);
    assert |national| >= 2;
    assert !IsDigit(ContactSuffix[4]);
    if EndsWith(national, ContactSuffix) {
      assert national[|national| - 1] == ContactSuffix[4];
    }
    var r := national + ContactSuffix;
    assert r[..|r| - |ContactSuffix|] == national;
    assert r[..2] == national[..2];
  }

  /** Formatting an already formatted number returns it unchanged. */
  lemma FormatNumberIdempotent(phone: string)
    ensures FormatNumber(FormatNumber(phone)) == FormatNumber(phone)
  {
    FormatNumberShape(phone);
    var r := FormatNumber(phone);
    var national := r[..|r| - 5];
    assert r == national + ContactSuffix;
    DigitsAppend(national, ContactSuffix);
    DigitsOfDigits(national);
    assert Digits(ContactSuffix) == [];
    assert Digits(r) == national;
    assert StartsWith(national, CountryCode);
    FormatNumberShape(r);
  }

  // ---------------------------------------------------------------------------
  // `getScheduledMessages`: `sort((a, b) => a.scheduledTime - b.scheduledTime)`

  ghost predicate SortedByTime(s: seq<ScheduledMessage>) {
    forall i, j :: 0 <= i < j < |s| ==> s[i].scheduledTime <= s[j].scheduledTime
  }

  /** Insert `m` in front of the first entry whose time is not earlier, so before
      the entries with the same time. */
  function InsertByTime(m: ScheduledMessage, s: seq<ScheduledMessage>): (r: seq<ScheduledMessage>)
    requires SortedByTime(s)
    ensures SortedByTime(r)
    ensures forall x :: x in r ==> x == m || x in s
    ensures multiset(r) == multiset(s) + multiset{m}
    decreases |s|
  {
    if s == [] then [m]
    else if m.scheduledTime <= s[0].scheduledTime then [m] + s
    else
      var tail := InsertByTime(m, s[1..]);
      InsertBehind(m, s, tail);
      [s[0]] + tail
  }

  /** The recursive case of `InsertByTime`: an entry `m` later than the first
      entry goes into the rest, behind that first entry. */
  lemma InsertBehind(m: ScheduledMessage, s: seq<ScheduledMessage>, tail: seq<ScheduledMessage>)
    requires SortedByTime(s) && s != [] && s[0].scheduledTime < m.scheduledTime
    requires SortedByTime(tail)
    requires forall x :: x in tail ==> x == m || x in s[1..]
    requires multiset(tail) == multiset(s[1..]) + multiset{m}
    ensures SortedByTime([s[0]] + tail)
    ensures forall x :: x in [s[0]] + tail ==> x == m || x in s
    ensures multiset([s[0]] + tail) == multiset(s) + multiset{m}
  {
    assert s == [s[0]] + s[1..];
    forall x | x in tail ensures s[0].scheduledTime <= x.scheduledTime {
      if x != m {
        var k :| 0 <= k < |s[1..]| && s[1..][k] == x;
        assert s[k + 1] == x;
      }
    }
    var r := [s[0]] + tail;
    forall i, j | 0 <= i < j < |r| ensures r[i].scheduledTime <= r[j].scheduledTime {
      if i == 0 {
        assert r[j] in tail;
      } else {
        assert r[i] == tail[i - 1] && r[j] == tail[j - 1];
      }
    }
  }

  /** The scheduled messages in ascending order of time, a permutation of the input. */
  function SortByTime(s: seq<ScheduledMessage>): (r: seq<ScheduledMessage>)
    ensures SortedByTime(r)
    ensures multiset(r) == multiset(s)
    ensures |r| == |s|
    decreases |s|
  {
    if s == [] then []
    else
      assert s == [s[0]] + s[1..];
      InsertByTime(s[0], SortByTime(s[1..]))
  }

  /** The entries with time `t`, in their order. */
  function Ties(s: seq<ScheduledMessage>, t: int): seq<ScheduledMessage>
    decreases |s|
  {
    if s == [] then [] else (if s[0].scheduledTime == t then [s[0]] else []) + Ties(s[1..], t)
  }

  /** Inserting puts `m` ahead of every entry with the same time. */
  lemma {:induction false} InsertByTimeTies(m: ScheduledMessage, s: seq<ScheduledMessage>, t: int)
    requires SortedByTime(s)
    ensures Ties(InsertByTime(m, s), t) == (if m.scheduledTime == t then [m] else []) + Ties(s, t)
    decreases |s|
  {
    if s == [] {
      TiesCons(m, [], t);
      assert [m] + [] == [m];
    } else if m.scheduledTime <= s[0].scheduledTime {
      TiesCons(m, s, t);
    } else {
      InsertByTimePast(m, s);
      InsertByTimeTies(m, s[1..], t);
      TiesPast(s[0], m, InsertByTime(m, s[1..]), s[1..], t);
    }
  }

  /** Inserting behind an earlier first entry inserts into the rest. */
  lemma InsertByTimePast(m: ScheduledMessage, s: seq<ScheduledMessage>)
    requires SortedByTime(s) && s != [] && s[0].scheduledTime < m.scheduledTime
    ensures SortedByTime(s[1..])
    ensures InsertByTime(m, s) == [s[0]] + InsertByTime(m, s[1..])
    ensures [s[0]] + s[1..] == s
  {
    assert s == [s[0]] + s[1..];
  }

  lemma TiesCons(x: ScheduledMessage, s: seq<ScheduledMessage>, t: int)
    ensures Ties([x] + s, t) == (if x.scheduledTime == t then [x] else []) + Ties(s, t)
  {
    assert ([x] + s)[1..] == s;
  }

  /** The step of `InsertByTimeTies` past an earlier entry `x`, which cannot
      share the time of `m`. */
  lemma TiesPast(x: ScheduledMessage, m: ScheduledMessage, a: seq<ScheduledMessage>, b: seq<ScheduledMessage>, t: int)
    requires x.scheduledTime < m.scheduledTime
    requires Ties(a, t) == (if m.scheduledTime == t then [m] else []) + Ties(b, t)
    ensures Ties([x] + a, t) == (if m.scheduledTime == t then [m] else []) + Ties([x] + b, t)
  {
    TiesCons(x, a, t);
    TiesCons(x, b, t);
    if x.scheduledTime == t {
      assert m.scheduledTime != t;
    }
  }

  /** The sort is stable, as `Array.prototype.sort` is: the entries with any one
      time come out in their original order. */
  lemma {:induction false} SortByTimeStable(s: seq<ScheduledMessage>, t: int)
    ensures Ties(SortByTime(s), t) == Ties(s, t)
    decreases |s|
  {
    if s != [] {
      SortByTimeStable(s[1..], t);
      InsertByTimeTies(s[0], SortByTime(s[1..]), t);
    }
  }

  /** Sorting a sorted list changes nothing, so sorting twice is sorting once. */
  lemma {:induction false} SortByTimeOfSorted(s: seq<ScheduledMessage>)
    requires SortedByTime(s)
    ensures SortByTime(s) == s
    decreases |s|
  {
    if s != [] {
      assert SortedByTime(s[1..]);
      SortByTimeOfSorted(s[1..]);
      assert s == [s[0]] + s[1..];
    }
  }

  /** An instance: two entries with the same time keep their order. */
  lemma SortKeepsTiesExample(a: ScheduledMessage, b: ScheduledMessage)
    requires a.scheduledTime == b.scheduledTime
    ensures SortByTime([a, b]) == [a, b]
  {
    assert [a, b][1..] == [b];
    assert [b][1..] == [];
  }
}
