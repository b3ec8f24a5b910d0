/** Request methods and the method matcher of the request line. */
module Methods {
  import opened Chars

  datatype Method =
    | DELETE | GET | HEAD | POST | PUT | CONNECT | OPTIONS | TRACE | COPY | LOCK | MKCOL | MOVE | PROPFIND
    | PROPPATCH | SEARCH | UNLOCK | BIND | REBIND | UNBIND | ACL | REPORT | MKACTIVITY | CHECKOUT | MERGE
    | MSEARCH | NOTIFY | SUBSCRIBE | UNSUBSCRIBE | PATCH | PURGE | MKCALENDAR | LINK | UNLINK

  function MethodString(m: Method): string {
    match m
    case DELETE => "DELETE" case GET => "GET" case HEAD => "HEAD" case POST => "POST" case PUT => "PUT"
    case CONNECT => "CONNECT" case OPTIONS => "OPTIONS" case TRACE => "TRACE" case COPY => "COPY"
    case LOCK => "LOCK" case MKCOL => "MKCOL" case MOVE => "MOVE" case PROPFIND => "PROPFIND"
    case PROPPATCH => "PROPPATCH" case SEARCH => "SEARCH" case UNLOCK => "UNLOCK" case BIND => "BIND"
    case REBIND => "REBIND" case UNBIND => "UNBIND" case ACL => "ACL" case REPORT => "REPORT"
    case MKACTIVITY => "MKACTIVITY" case CHECKOUT => "CHECKOUT" case MERGE => "MERGE"
    case MSEARCH => "M-SEARCH" case NOTIFY => "NOTIFY" case SUBSCRIBE => "SUBSCRIBE"
    case UNSUBSCRIBE => "UNSUBSCRIBE" case PATCH => "PATCH" case PURGE => "PURGE"
    case MKCALENDAR => "MKCALENDAR" case LINK => "LINK" case UNLINK => "UNLINK"
  }

  /** The method assumed after the first letter. */
  function FirstGuess(c: char): Option<Method> {
    match c
    case 'A' => Some(ACL) case 'B' => Some(BIND) case 'C' => Some(CONNECT) case 'D' => Some(DELETE)
    case 'G' => Some(GET) case 'H' => Some(HEAD) case 'L' => Some(LOCK) case 'M' => Some(MKCOL)
    case 'N' => Some(NOTIFY) case 'O' => Some(OPTIONS) case 'P' => Some(POST) case 'R' => Some(REPORT)
    case 'S' => Some(SUBSCRIBE) case 'T' => Some(TRACE) case 'U' => Some(UNLOCK)
    case _ => None
  }

  /** The method to change to when letter `c` at `index` does not match the current guess. */
  function Redirect(m: Method, index: nat, c: char): Option<Method> {
    match m
    case POST =>
      if index == 1 then (if c == 'U' then Some(PUT) else if c == 'A' then Some(PATCH)
                          else if c == 'R' then Some(PROPFIND) else None) else None
    case CONNECT =>
      if index == 1 && c == 'H' then Some(CHECKOUT) else if index == 2 && c == 'P' then Some(COPY) else None
    case MKCOL =>
      if index == 1 then (if c == 'O' then Some(MOVE) else if c == 'E' then Some(MERGE) else None)
      else if index == 2 && c == 'A' then Some(MKACTIVITY)
      else if index == 3 && c == 'A' then Some(MKCALENDAR) else None
    case SUBSCRIBE => if index == 1 && c == 'E' then Some(SEARCH) else None
    case REPORT => if index == 2 && c == 'B' then Some(REBIND) else None
    case PROPFIND => if index == 4 && c == 'P' then Some(PROPPATCH) else None
    case PUT => if index == 2 && c == 'R' then Some(PURGE) else None
    case LOCK => if index == 1 && c == 'I' then Some(LINK) else None
    case UNLOCK =>
      if index == 2 && c == 'S' then Some(UNSUBSCRIBE) else if index == 2 && c == 'B' then Some(UNBIND)
      else if index == 3 && c == 'I' then Some(UNLINK) else None
    case _ => None
  }

  /** The guess after letter `c` at `index`, or None for an invalid method. */
  function NextGuess(m: Method, index: nat, c: char): Option<Method>
  {
    if c == NUL then None
    else if c == At(MethodString(m), index) then Some(m)
    else if IsAlpha(c) then Redirect(m, index, c)
    else if c == '-' && index == 1 && m == MKCOL then Some(MSEARCH)
    else None
  }
}
