/** The members list: the rows the users service derives from the
    authentication users, and the page's search and cells over them. */
module Users {
  import opened Basics
  import opened Text
  import opened Listing
  import opened Search

  /** A user of the authentication service: `metadata` is the free-form
      `user_metadata` object. */
  datatype AuthUser = AuthUser(id: string, email: Option<string>, phone: Option<string>, metadata: Json, createdAt: Json)

  /** A row of the members list. */
  datatype UserRow = UserRow(id: string, name: Json, email: Json, phone: Json, createdAt: Json)

  /** The name shown for a user without one. */
  const Anonymous: string := "Kullanıcı"

  /** `email?.split('@')[0]`: the part of the email before its first '@'. */
  function EmailPrefix(email: Option<string>): (r: Json)
    ensures email.None? ==> r == JNull
    ensures email.Some? ==> r.JStr? && IsPrefix(r.s, email.value) && '@' !in r.s
  {
    match email
    case None => JNull
    case Some(e) => JStr(BeforeAt(e))
  }

  /** The row of one user: the metadata's full name, else the email's
      prefix, else 'Kullanıcı'; the phone, else the metadata's phone, else
      '-'; id, email and creation time as they are. */
  function ToRow(u: AuthUser): (r: UserRow)
    ensures r.id == u.id && r.email == OfText(u.email) && r.createdAt == u.createdAt
    ensures Truthy(Prop(u.metadata, "full_name")) ==> r.name == Prop(u.metadata, "full_name")
    ensures !Truthy(Prop(u.metadata, "full_name")) && Truthy(EmailPrefix(u.email)) ==> r.name == EmailPrefix(u.email)
    ensures !Truthy(Prop(u.metadata, "full_name")) && !Truthy(EmailPrefix(u.email)) ==> r.name == JStr(Anonymous)
    ensures Filled(u.phone) ==> r.phone == JStr(u.phone.value)
    ensures !Filled(u.phone) && Truthy(Prop(u.metadata, "phone")) ==> r.phone == Prop(u.metadata, "phone")
    ensures !Filled(u.phone) && !Truthy(Prop(u.metadata, "phone")) ==> r.phone == JStr("-")
  {
    UserRow(
      u.id,
      Or(Prop(u.metadata, "full_name"), Or(EmailPrefix(u.email), JStr(Anonymous))),
      OfText(u.email),
      Or(OfText(u.phone), Or(Prop(u.metadata, "phone"), JStr("-"))),
      u.createdAt)
  }

  /** Every row has a name and a phone cell; without a full name, the name
      is the email's text up to its first '@', when that is not empty. */
  lemma RowAlwaysNamed(u: AuthUser)
    ensures Truthy(ToRow(u).name) && Truthy(ToRow(u).phone)
    ensures !Truthy(Prop(u.metadata, "full_name")) && u.email.Some? && |u.email.value| > 0 && u.email.value[0] != '@' ==>
              ToRow(u).name.JStr? && |ToRow(u).name.s| > 0 && IsPrefix(ToRow(u).name.s, u.email.value)
  {
  }

  /** An email that starts with '@', or is empty, falls back to 'Kullanıcı'. */
  lemma EmptyPrefixFallsBack(u: AuthUser)
    requires !Truthy(Prop(u.metadata, "full_name"))
    requires u.email.Some? && (u.email.value == "" || u.email.value[0] == '@')
    ensures ToRow(u).name == JStr(Anonymous)
  {
  }

  /** What `getUsers` hands back. */
  datatype Listed = Listed(data: seq<UserRow>, error: Option<string>)

  /** `getUsers`: one row per user, in order, or no rows and the error. */
  function GetUsers(listed: Result<seq<AuthUser>>): (r: Listed)
    ensures listed.Err? ==> r == Listed([], Some(listed.error))
    ensures listed.Ok? ==> r.error.None? && |r.data| == |listed.value|
    ensures listed.Ok? ==> forall i :: 0 <= i < |r.data| ==> r.data[i] == ToRow(listed.value[i])
  {
    match listed
    case Err(e) => Listed([], Some(e))
    case Ok(users) => Listed(seq(|users|, i requires 0 <= i < |users| => ToRow(users[i])), None)
  }

  /** The row ids are the user ids, in order. */
  lemma RowsKeepIds(listed: Result<seq<AuthUser>>)
    requires listed.Ok?
    ensures forall i :: 0 <= i < |listed.value| ==> GetUsers(listed).data[i].id == listed.value[i].id
  {
  }

  /** A row is kept when its name, email or phone contains the lower-cased
      term; only text values can match. */
  predicate Matches(u: UserRow, term: string) {
    TextMatches(u.name, Lower(term)) || TextMatches(u.email, Lower(term)) || TextMatches(u.phone, Lower(term))
  }

  /** `filteredUsers`: the matching rows in their loaded order. */
  function FilterUsers(users: seq<UserRow>, term: string): (r: seq<UserRow>)
    ensures Subseq(r, users)
    ensures forall u :: u in r <==> u in users && Matches(u, term)
    ensures |r| == CountWhere(users, (u: UserRow) => Matches(u, term))
    ensures forall u :: u in r ==> u.name.JStr? || u.email.JStr? || u.phone.JStr?
  {
    Filter(users, (u: UserRow) => Matches(u, term))
  }

  /** A row without a text name, email or phone is never listed, not even
      for the empty term; a row with any of them is listed for the empty
      term. */
  lemma EmptyTermKeepsRowsWithText(users: seq<UserRow>, u: UserRow)
    requires u in users
    ensures !u.name.JStr? && !u.email.JStr? && !u.phone.JStr? ==> u !in FilterUsers(users, "")
    ensures u.name.JStr? ==> u in FilterUsers(users, "")
  {
    if u.name.JStr? {
      EmptyTermMatchesText(u.name);
    }
  }

  /** Rows from the service whose full names are texts all carry a text
      name, so the empty search lists every one of them. */
  lemma ServiceRowsAllListed(users: seq<AuthUser>)
    requires forall i :: 0 <= i < |users| ==> !Truthy(Prop(users[i].metadata, "full_name")) || Prop(users[i].metadata, "full_name").JStr?
    ensures FilterUsers(GetUsers(Ok(users)).data, "") == GetUsers(Ok(users)).data
  {
    var rows := GetUsers(Ok(users)).data;
    forall i | 0 <= i < |rows|
      ensures Matches(rows[i], "")
    {
      assert rows[i] == ToRow(users[i]);
      EmptyTermMatchesText(rows[i].name);
    }
  }

  /** A table cell: the value when it is set, '-' otherwise. */
  function Cell(v: Json): (r: string)
    ensures !Truthy(v) ==> r == "-"
    ensures v.JStr? && v.s != "" ==> r == v.s
  {
    if Truthy(v) then Display(v) else "-"
  }

  /** The date cell: the locale rendering `format` gives, or '-' when unset. */
  function DateCell(v: Json, format: Json -> string): (r: string)
    ensures !Truthy(v) ==> r == "-"
    ensures Truthy(v) ==> r == format(v)
  {
    if Truthy(v) then format(v) else "-"
  }

  /** With a locale rendering that never writes '-' itself, the dash shows
      exactly for a missing date. */
  lemma DateCellPlaceholderIff(v: Json, format: Json -> string)
    requires forall d :: format(d) != "-"
    ensures DateCell(v, format) == "-" <==> !Truthy(v)
  {
  }
}
