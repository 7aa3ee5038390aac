/** The older revision's `extractMentions(string, guild, limit)`, which reads a single
    leading mention. Its other helpers have the same logic as those in `Util`. */
module UtilV1 {
  import opened Wrappers
  import opened Text
  import opened Platform
  import opened Util

  /** The result: the text after the first token, the user and the member. */
  datatype SingleMention = SingleMention(content: string, user: Option<User>, member: Option<Member>)

  /** Any limit other than 1 throws `null`; an empty token array makes the first token
      `undefined`, so reading its match is a TypeError. */
  datatype SingleFailure = ThrowsNull | NoFirstToken

  method ExtractMention(src: MentionSource, limit: int, dir: Directory, snowflake: Snowflakes)
    returns (r: Result<SingleMention, SingleFailure>)
    ensures limit != 1 ==> r == Err(ThrowsNull)
    ensures limit == 1 && |Tokens(src)| == 0 ==> r == Err(NoFirstToken)
    ensures limit == 1 && |Tokens(src)| >= 1 ==>
      var ts := Tokens(src);
      r.Ok? && r.value.content == Join(ts[1..], " ")
      && (!IsMention(snowflake, ts[0]) ==> r.value.user.None? && r.value.member.None?)
      && (IsMention(snowflake, ts[0]) ==>
            var fetched := dir.fetchUser(snowflake(ts[0]).value);
            (fetched.Failed? ==> r.value.user.None? && r.value.member.None?)
            && (fetched.Got? ==>
                  r.value.user == Some(fetched.value)
                  && r.value.member == (match dir.fetchMember(fetched.value.id)
                                        case Got(m) => Some(m)
                                        case Failed(_) => None)))
  {
    if limit != 1 {
      return Err(ThrowsNull);
    }
    var tokens := Tokens(src);
    if |tokens| == 0 {
      return Err(NoFirstToken);
    }
    var mention := tokens[0];
    var user: Option<User> := None;
    var member: Option<Member> := None;
    if IsMention(snowflake, mention) {
      // every fetch error is swallowed, leaving what was already set
      var fetched := dir.fetchUser(snowflake(mention).value);
      if fetched.Got? {
        user := Some(fetched.value);
        var fetchedMember := dir.fetchMember(fetched.value.id);
        if fetchedMember.Got? {
          member := Some(fetchedMember.value);
        }
      }
    }
    return Ok(SingleMention(Join(tokens[1..], " "), user, member));
  }
}
