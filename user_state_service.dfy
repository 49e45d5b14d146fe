/** The session store (bot/service/UserStateService.java): a table from chat id
    to a UserSession, filled on demand. Every accessor, reading ones included,
    first fetches the chat's session and creates a default one if the chat has
    none (computeIfAbsent). getSession is private, so no session object is
    ever shared outside the table and each entry is modelled by its value: a
    setter on the fetched session becomes a write of the updated value. */
module SessionStore {
  import opened JavaLang
  import opened BookStatuses
  import opened Entities
  import opened UserSessions

  type ChatId = Long

  /** The session a chat sees: its stored one, or the defaults if it has none. */
  function Load(m: map<ChatId, Session>, c: ChatId): (s: Session)
    ensures c !in m ==> s == DefaultSession
  {
    if c in m then m[c] else DefaultSession
  }

  /** The table after getSession(c): the chat now has an entry, with the values
      it already read. */
  function Touch(m: map<ChatId, Session>, c: ChatId): (m': map<ChatId, Session>)
    ensures m'.Keys == m.Keys + {c}
  {
    m[c := Load(m, c)]
  }

  /** The table after writing session `s` for chat `c`. */
  function Put(m: map<ChatId, Session>, c: ChatId, s: Session): (m': map<ChatId, Session>)
    ensures m'.Keys == m.Keys + {c}
    ensures Load(m', c) == s
  {
    m[c := s]
  }

  /** Creating an entry is invisible: a touched table reads like the original. */
  lemma TouchIsUnobservable(m: map<ChatId, Session>, c: ChatId, d: ChatId)
    ensures Load(Touch(m, c), d) == Load(m, d)
  {
  }

  /** Writing one chat's session leaves every other chat's session as it was. */
  lemma PutLeavesOthers(m: map<ChatId, Session>, c: ChatId, s: Session, d: ChatId)
    requires d != c
    ensures Load(Put(m, c, s), d) == Load(m, d)
  {
  }

  /** A chat never seen reads state NONE, no cached results, page 0, no
      filter and no book selected for change. */
  lemma UnseenChatReadsDefaults(m: map<ChatId, Session>, c: ChatId)
    requires c !in m
    ensures Load(m, c).state == NONE && Load(m, c).searchResults == []
    ensures Load(m, c).currentPage == 0
    ensures Load(m, c).bookStatusFilter == None && Load(m, c).bookIdForChange == None
  {
  }

  /** Saving search results and reading them back gives the saved list;
      clearing them leaves the empty list. Nothing else in the session moves. */
  lemma SaveThenGetSearchResults(m: map<ChatId, Session>, c: ChatId, results: seq<Candidate>)
    ensures Load(Put(m, c, Load(m, c).(searchResults := results)), c).searchResults == results
    ensures Load(Put(m, c, Load(m, c).(searchResults := [])), c).searchResults == []
    ensures var s := Load(Put(m, c, Load(m, c).(searchResults := results)), c);
      s.state == Load(m, c).state && s.currentPage == Load(m, c).currentPage
      && s.bookStatusFilter == Load(m, c).bookStatusFilter && s.bookIdForChange == Load(m, c).bookIdForChange
  {
  }

  /** Each setter followed by its getter reads the value set, and changes that
      field only. */
  lemma SetThenGetState(m: map<ChatId, Session>, c: ChatId, v: UserState)
    ensures Load(Put(m, c, Load(m, c).(state := v)), c) == Load(m, c).(state := v)
    ensures Load(Put(m, c, Load(m, c).(state := v)), c).state == v
  {
  }

  lemma SetThenGetCurrentPage(m: map<ChatId, Session>, c: ChatId, v: Int32)
    ensures Load(Put(m, c, Load(m, c).(currentPage := v)), c) == Load(m, c).(currentPage := v)
    ensures Load(Put(m, c, Load(m, c).(currentPage := v)), c).currentPage == v
  {
  }

  lemma SetThenGetBookStatusFilter(m: map<ChatId, Session>, c: ChatId, v: Option<BookStatus>)
    ensures Load(Put(m, c, Load(m, c).(bookStatusFilter := v)), c) == Load(m, c).(bookStatusFilter := v)
    ensures Load(Put(m, c, Load(m, c).(bookStatusFilter := v)), c).bookStatusFilter == v
  {
  }

  lemma SetThenGetBookIdForChange(m: map<ChatId, Session>, c: ChatId, v: Option<Long>)
    ensures Load(Put(m, c, Load(m, c).(bookIdForChange := v)), c) == Load(m, c).(bookIdForChange := v)
    ensures Load(Put(m, c, Load(m, c).(bookIdForChange := v)), c).bookIdForChange == v
  {
  }

  class UserStateService {
    var userSessions: map<ChatId, Session>

    constructor ()
      ensures userSessions == map[]
    {
      userSessions := map[];
    }

    /** getSession: computeIfAbsent(chatId, new UserSession()). */
    method GetSession(c: ChatId) returns (s: Session)
      modifies this
      ensures s == Load(old(userSessions), c)
      ensures userSessions == Touch(old(userSessions), c)
    {
      if c !in userSessions {
        userSessions := userSessions[c := DefaultSession];
      }
      s := userSessions[c];
    }

    method SaveSearchResults(c: ChatId, results: seq<Candidate>)
      modifies this
      ensures userSessions == Put(old(userSessions), c, Load(old(userSessions), c).(searchResults := results))
    {
      var s := GetSession(c);
      userSessions := userSessions[c := s.(searchResults := results)];
    }

    method GetSearchResults(c: ChatId) returns (results: seq<Candidate>)
      modifies this
      ensures results == Load(old(userSessions), c).searchResults
      ensures userSessions == Touch(old(userSessions), c)
    {
      var s := GetSession(c);
      results := s.searchResults;
    }

    /** clearSearchResults: the cache becomes the empty list. */
    method ClearSearchResults(c: ChatId)
      modifies this
      ensures userSessions == Put(old(userSessions), c, Load(old(userSessions), c).(searchResults := []))
    {
      var s := GetSession(c);
      userSessions := userSessions[c := s.(searchResults := [])];
    }

    method GetCurrentPage(c: ChatId) returns (page: Int32)
      modifies this
      ensures page == Load(old(userSessions), c).currentPage
      ensures userSessions == Touch(old(userSessions), c)
    {
      var s := GetSession(c);
      page := s.currentPage;
    }

    method SetCurrentPage(c: ChatId, page: Int32)
      modifies this
      ensures userSessions == Put(old(userSessions), c, Load(old(userSessions), c).(currentPage := page))
    {
      var s := GetSession(c);
      userSessions := userSessions[c := s.(currentPage := page)];
    }

    /** incrementPage: page + 1 in Java `int` arithmetic. */
    method IncrementPage(c: ChatId)
      modifies this
      ensures userSessions == Put(old(userSessions), c,
        Load(old(userSessions), c).(currentPage := Wrap32(Load(old(userSessions), c).currentPage as int + 1)))
    {
      var page := GetCurrentPage(c);
      SetCurrentPage(c, Wrap32(page as int + 1));
    }

    /** decrementPage: Math.max(0, page - 1), which never goes below 0. */
    method DecrementPage(c: ChatId)
      modifies this
      ensures userSessions == Put(old(userSessions), c,
        Load(old(userSessions), c).(currentPage := DecrementedPage(Load(old(userSessions), c).currentPage)))
    {
      var page := GetCurrentPage(c);
      SetCurrentPage(c, DecrementedPage(page));
    }

    method GetBookStatusFilter(c: ChatId) returns (filter: Option<BookStatus>)
      modifies this
      ensures filter == Load(old(userSessions), c).bookStatusFilter
      ensures userSessions == Touch(old(userSessions), c)
    {
      var s := GetSession(c);
      filter := s.bookStatusFilter;
    }

    method SetBookStatusFilter(c: ChatId, filter: Option<BookStatus>)
      modifies this
      ensures userSessions == Put(old(userSessions), c, Load(old(userSessions), c).(bookStatusFilter := filter))
    {
      var s := GetSession(c);
      userSessions := userSessions[c := s.(bookStatusFilter := filter)];
    }

    method GetState(c: ChatId) returns (state: UserState)
      modifies this
      ensures state == Load(old(userSessions), c).state
      ensures userSessions == Touch(old(userSessions), c)
    {
      var s := GetSession(c);
      state := s.state;
    }

    method SetState(c: ChatId, state: UserState)
      modifies this
      ensures userSessions == Put(old(userSessions), c, Load(old(userSessions), c).(state := state))
    {
      var s := GetSession(c);
      userSessions := userSessions[c := s.(state := state)];
    }

    method SetBookIdForChange(c: ChatId, bookId: Option<Long>)
      modifies this
      ensures userSessions == Put(old(userSessions), c, Load(old(userSessions), c).(bookIdForChange := bookId))
    {
      var s := GetSession(c);
      userSessions := userSessions[c := s.(bookIdForChange := bookId)];
    }

    method GetBookIdForChange(c: ChatId) returns (bookId: Option<Long>)
      modifies this
      ensures bookId == Load(old(userSessions), c).bookIdForChange
      ensures userSessions == Touch(old(userSessions), c)
    {
      var s := GetSession(c);
      bookId := s.bookIdForChange;
    }
  }

  /** The page decrementPage stores: Math.max(0, page - 1) in `int` arithmetic. */
  function DecrementedPage(page: Int32): (r: Int32)
    ensures page >= 0 ==> r >= 0
    ensures page > 0 ==> r == page - 1
    ensures MinInt32 < page <= 0 ==> r == 0
    ensures page == MinInt32 ==> r == MaxInt32   // page - 1 wraps around
  {
    var p := Wrap32(page as int - 1);
    if p < 0 then 0 else p
  }
}
