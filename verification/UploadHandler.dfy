/**
 The objects of an upload: the file being written, the handler that fills it from
 a request's body, and the server's message callback that calls it.
 */
module UploadObjects {
  import opened Bytes
  import opened Upload
  import opened NetBuffer
  import HttpParser
  import HttpObjects
  import HttpServerModel
  import ParserDriver
  import ParserCalls
  import opened Options

  class FileUploadContext {
    var file: string
    var totalBytes: nat
    var state: State
    const boundary: string

    function View(): Upload
      reads this
    {
      Upload(state, file, totalBytes)
    }

    constructor (boundary: string)
      ensures View() == NEW && this.boundary == boundary
    {
      file, totalBytes, state := "", 0, ExpectHeaders;
      this.boundary := boundary;
    }

    method WriteData(data: string)
      modifies this`file, this`totalBytes
      ensures View() == Write(old(View()), data)
    {
      file := file + data;
      totalBytes := totalBytes + |data|;
    }

    /** The first piece, which holds the header block or never will. `thrown`: the
        closing delimiter is found before the end of that block, the length of the
        write wraps around, and the write fails. */
    method TakeFirst(body: string) returns (thrown: bool)
      requires boundary != "" && View() == NEW
      modifies this
      ensures thrown == First(boundary, body).None?
      ensures if thrown then View() == NEW else Some(View()) == First(boundary, body)
    {
      hide Search;
      thrown := false;
      var pos := Search(body, BLANK_LINE);
      if pos != |body| {
        pos := pos + 4;
        var endPos := Search(body, Closing(boundary));
        if endPos != |body| {
          if endPos > 0 {
            if endPos < pos {
              return true;
            }
            WriteData(body[pos..endPos]);
          }
          state := Complete;
        } else {
          if pos < |body| {
            WriteData(body[pos..]);
          } else {
            assert file + body[pos..] == file;
          }
          state := ExpectBoundary;
        }
      }
    }

    method TakeLater(body: string)
      requires boundary != ""
      modifies this
      ensures View() == Later(old(View()), boundary, body)
    {
      hide Search, SearchFrom;
      if body == "" {
        NothingLater(View(), boundary);
        return;
      }
      match state {
        case ExpectBoundary =>
          var endPos := Search(body, Closing(boundary));
          if endPos != |body| {
            if endPos > 0 {
              WriteData(body[..endPos]);
            } else {
              assert file + body[..0] == file;
            }
            state := Complete;
          } else {
            var boundaryPos := Search(body, boundary);
            if boundaryPos != |body| {
              var contentStart := SearchFrom(body, BLANK_LINE, boundaryPos);
              if contentStart != |body| {
                if boundaryPos > 0 {
                  WriteData(body[..boundaryPos]);
                } else {
                  assert file + body[..0] == file;
                }
                state := ExpectContent;
              }
            } else {
              WriteData(body);
            }
          }
        case ExpectContent =>
          var boundaryPos := Search(body, boundary);
          if boundaryPos != |body| {
            WriteData(body[..boundaryPos]);
            state := ExpectBoundary;
          } else {
            WriteData(body);
          }
        case _ =>
      }
    }
  }

  lemma NothingLater(u: Upload, b: string)
    requires b != ""
    ensures Later(u, b, "") == u
  {
    assert u.file + "" == u.file;
  }

  ghost function ViewOf(upload: FileUploadContext?): Option<Upload>
    reads upload
  {
    if upload == null then None else Some(upload.View())
  }

  /** `handleFileUpload` from where the boundary is known. `upload` is what the
      connection's context holds before, `next` what it holds afterwards, and
      `report` the upload that the response and the database are told of. */
  method HandleFileUpload(req: HttpObjects.HttpRequest, upload: FileUploadContext?, boundary: string, named: bool,
                          gotAll: bool)
    returns (next: FileUploadContext?, report: Option<Upload>)
    requires boundary != "" && (upload != null ==> upload.boundary == boundary)
    modifies req`body, upload
    ensures next != null ==> next.boundary == boundary && (next == upload || fresh(next))
    ensures Handled(ViewOf(next), req.body, report)
         == Handle(boundary, named, old(ViewOf(upload)), old(req.body), gotAll)
  {
    hide First, Later;
    next, report := upload, None;
    if next == null {
      if !named && req.body == "" {
        return;
      }
      next := new FileUploadContext(boundary);
      var thrown := next.TakeFirst(req.body);
      if thrown {
        return;
      }
    } else {
      next.TakeLater(req.body);
    }
    req.body := "";
    if next.state == Complete || gotAll {
      report := Some(next.View());
      next := null;
    }
  }

  /** `onMessage` with the upload handler behind it. When its call of the parser
      returns, what is answered, handed over or reset, and which upload is reported,
      follow from what parsing all the bytes leaves. */
  method OnMessage(context: HttpObjects.HttpContext, buf: Buffer, upload: FileUploadContext?, boundary: string,
                   named: bool, turns: nat)
    returns (aborted: bool, returned: bool, a: HttpServerModel.Action, next: FileUploadContext?, report: Option<Upload>)
    requires buf.Valid() && ParserCalls.Callable(context.Conf(buf)) && HttpServerModel.NoBodyYet(context.Conf(buf))
    requires boundary != "" && turns > 0 && (upload != null ==> upload.boundary == boundary)
    modifies context, context.request, buf, upload
    ensures buf.Valid()
    ensures aborted == ParserCalls.AssertFails(old(context.Conf(buf)))
    ensures !aborted ==>
              var c, m := old(context.Conf(buf)), old(buf.Stale());
              HttpParser.Wf(c) && returned == ParserDriver.Drive(c, m, ParserDriver.NeedMore, turns).returned
    ensures !aborted && returned ==>
              && HttpParser.Wf(old(context.Conf(buf)))
              && var d := HttpParser.Run(old(context.Conf(buf)), Some(old(buf.Stale())));
              && var r := HttpServerModel.React(d, old(ViewOf(upload)), boundary, named);
              && a == HttpServerModel.ActionOf(d)
              && context.Conf(buf) == r.config.(failed := false) && ViewOf(next) == r.slot && report == r.report
              && ParserCalls.Callable(context.Conf(buf)) && HttpServerModel.NoBodyYet(context.Conf(buf))
  {
    hide ParserDriver.Drive, HttpParser.Run, Handle, HttpParser.Wf, ParserCalls.Callable, ParserCalls.AssertFails;
    ghost var c, m := context.Conf(buf), buf.Stale();
    ParserCalls.AbortOrWf(c);
    var result;
    a, next, report := HttpServerModel.Wait, upload, None;
    aborted, returned, result := context.ParseRequest(buf, turns);
    if !aborted && returned {
      HttpServerModel.MessageParsed(c, m, turns);
      ghost var d := HttpParser.Run(c, Some(m));
      match result {
        case Error => a := HttpServerModel.Reject;
        case HeadersComplete =>
          if context.state == HttpParser.ExpectBody {
            if context.request.path == "/upload" && context.request.meth == HttpParser.Post {
              if |context.request.body| >= HttpServerModel.LARGE {
                a := HttpServerModel.HandPiece(context.request.body);
                next, report := HandleFileUpload(context.request, upload, boundary, named, false);
              }
            }
          }
        case GotRequest =>
          a := HttpServerModel.Answer(context.request.View());
          if context.request.path == "/upload" && context.request.meth == HttpParser.Post {
            next, report := HandleFileUpload(context.request, upload, boundary, named, true);
          }
          next := null;
          context.Reset();
        case NeedMore =>
      }
      HttpServerModel.ReactReady(d, old(ViewOf(upload)), boundary, named);
    }
  }
}
