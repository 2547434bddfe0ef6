/** The write side of one client connection: a buffer, an offset, and partial sends. */
module ConnectionIo {

  // One answer of `send` on a non-blocking socket; an answer of 0 counts as an error.
  datatype SendAnswer = Accepted(n: nat) | WouldBlock | SendError

  // The socket has answered since, and this was its latest answer.
  ghost predicate Latest(since: seq<SendAnswer>, answers: seq<SendAnswer>, a: SendAnswer) {
    since < answers && answers[|answers| - 1] == a
  }

  class HttpConnectionIo {
    const fd: int
    var writeBuffer: string
    var writeOffset: nat
    ghost var queued: string              // everything ever queued
    ghost var sent: string                // everything the socket has accepted
    ghost var answers: seq<SendAnswer>    // every answer of the socket

    ghost predicate Valid()
      reads this
    {
      && writeOffset <= |writeBuffer|
      && sent + writeBuffer[writeOffset..] == queued
      && (writeBuffer != [] ==> writeOffset < |writeBuffer|)
    }

    constructor (fd: int)
      ensures Valid() && this.fd == fd
      ensures queued == [] && sent == [] && answers == []
    {
      this.fd := fd;
      writeBuffer, writeOffset := [], 0;
      queued, sent, answers := [], [], [];
    }

    predicate HasPendingWrite()
      reads this
    {
      writeOffset < |writeBuffer|
    }

    // The connection still owes bytes exactly if not everything queued has been accepted.
    lemma PendingMeansUnsent()
      requires Valid()
      ensures sent <= queued
      ensures HasPendingWrite() <==> sent != queued
    {
    }

    method QueueWrite(data: string)
      requires Valid()
      modifies this`writeBuffer, this`queued
      ensures Valid()
      ensures queued == old(queued) + data
    {
      if data == [] {
        return;
      }
      writeBuffer := writeBuffer + data;
      queued := queued + data;
    }

    // The kernel: any answer that the contract of `send` allows.
    method Send() returns (answer: SendAnswer)
      requires Valid() && HasPendingWrite()
      modifies this`sent, this`answers
      ensures answers == old(answers) + [answer]
      ensures answer.Accepted? ==>
        && 0 < answer.n <= |writeBuffer| - writeOffset
        && sent == old(sent) + writeBuffer[writeOffset..writeOffset + answer.n]
      ensures !answer.Accepted? ==> sent == old(sent)
    {
      answer := SendError;
      if * {
        answer := WouldBlock;
      } else if * {
        var n: nat :| 0 < n <= |writeBuffer| - writeOffset;
        answer := Accepted(n);
        sent := sent + writeBuffer[writeOffset..writeOffset + n];
      }
      answers := answers + [answer];
    }

    /**
     Sends until the socket blocks, fails or nothing is left. The result is -1 after a
     failure and the number of bytes accepted otherwise.
     */
    method FlushToSocket() returns (total: int)
      requires Valid()
      modifies this`writeBuffer, this`writeOffset, this`sent, this`answers
      ensures Valid()
      ensures old(sent) <= sent <= queued
      ensures old(answers) <= answers
      ensures total >= -1
      ensures total >= 0 ==> |sent| == |old(sent)| + total
      ensures total >= 0 && HasPendingWrite() ==> Latest(old(answers), answers, WouldBlock)
      ensures total == -1 && fd >= 0 ==> HasPendingWrite() && Latest(old(answers), answers, SendError)
      ensures total >= 0 ==> !Latest(old(answers), answers, SendError)
      ensures fd < 0 ==> total == -1 && sent == old(sent)
    {
      if fd < 0 {
        return -1;
      }
      total := 0;
      while writeOffset < |writeBuffer|
        invariant writeOffset <= |writeBuffer|
        invariant sent + writeBuffer[writeOffset..] == queued
        invariant writeBuffer == old(writeBuffer)
        invariant old(sent) <= sent && old(answers) <= answers
        invariant !Latest(old(answers), answers, SendError)
        invariant 0 <= total && |sent| == |old(sent)| + total
        decreases |writeBuffer| - writeOffset
      {
        var answer := Send();
        if answer.Accepted? {
          writeOffset := writeOffset + answer.n;
          total := total + answer.n;
          continue;
        }
        if answer.WouldBlock? {
          break;
        }
        return -1;
      }
      if writeOffset == |writeBuffer| {
        writeBuffer := [];
        writeOffset := 0;
      }
    }
  }
}
