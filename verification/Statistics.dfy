/** The message counters (internal/stats/stats.go). They are unsigned 64-bit words
    and wrap around, so what they satisfy is stated modulo 2^64. */
module Statistics {
  const WRAP := 0x1_0000_0000_0000_0000

  type Word = n: nat | n < WRAP witness 0

  function Up(n: Word): Word {
    (n + 1) % WRAP
  }

  datatype Counters = Counters(
    totalMessages: Word, parsedMessages: Word, failedMessages: Word, storedStates: Word,
    createdFlights: Word, updatedFlights: Word, endedFlights: Word,
    messageTypeCounts: seq<Word>, activeAircraft: Word, activeFlights: Word)

  const NO_COUNTS := Counters(0, 0, 0, 0, 0, 0, 0, [0, 0, 0, 0, 0, 0, 0, 0, 0, 0], 0, 0)

  class Stats {
    var totalMessages: Word
    var parsedMessages: Word
    var failedMessages: Word
    var storedStates: Word
    var createdFlights: Word
    var updatedFlights: Word
    var endedFlights: Word
    var messageTypeCounts: seq<Word>
    var activeAircraft: Word
    var activeFlights: Word

    function Counts(): Counters
      reads this
    {
      Counters(totalMessages, parsedMessages, failedMessages, storedStates, createdFlights,
               updatedFlights, endedFlights, messageTypeCounts, activeAircraft, activeFlights)
    }

    constructor ()
      ensures Counts() == NO_COUNTS
    {
      totalMessages, parsedMessages, failedMessages, storedStates := 0, 0, 0, 0;
      createdFlights, updatedFlights, endedFlights := 0, 0, 0;
      messageTypeCounts := [0, 0, 0, 0, 0, 0, 0, 0, 0, 0];
      activeAircraft, activeFlights := 0, 0;
    }

    method IncrementTotalMessages()
      modifies this
      ensures Counts() == old(Counts()).(totalMessages := Up(old(totalMessages)))
    {
      totalMessages := Up(totalMessages);
    }

    method IncrementParsedMessages()
      modifies this
      ensures Counts() == old(Counts()).(parsedMessages := Up(old(parsedMessages)))
    {
      parsedMessages := Up(parsedMessages);
    }

    method IncrementFailedMessages()
      modifies this
      ensures Counts() == old(Counts()).(failedMessages := Up(old(failedMessages)))
    {
      failedMessages := Up(failedMessages);
    }

    method IncrementStoredStates()
      modifies this
      ensures Counts() == old(Counts()).(storedStates := Up(old(storedStates)))
    {
      storedStates := Up(storedStates);
    }

    method IncrementMessageType(msgType: int)
      modifies this
      ensures Counts() == old(Counts()).(messageTypeCounts := UpAt(old(messageTypeCounts), msgType))
    {
      if 0 <= msgType < |messageTypeCounts| {
        messageTypeCounts := messageTypeCounts[msgType := Up(messageTypeCounts[msgType])];
      }
    }

    method IncrementCreatedFlights()
      modifies this
      ensures Counts() == old(Counts()).(createdFlights := Up(old(createdFlights)))
    {
      createdFlights := Up(createdFlights);
    }

    method IncrementUpdatedFlights()
      modifies this
      ensures Counts() == old(Counts()).(updatedFlights := Up(old(updatedFlights)))
    {
      updatedFlights := Up(updatedFlights);
    }

    method IncrementEndedFlights()
      modifies this
      ensures Counts() == old(Counts()).(endedFlights := Up(old(endedFlights)))
    {
      endedFlights := Up(endedFlights);
    }

    method SetActive(aircraft: nat, flights: nat)
      modifies this
      ensures Counts() == old(Counts()).(activeAircraft := aircraft % WRAP, activeFlights := flights % WRAP)
    {
      activeAircraft, activeFlights := aircraft % WRAP, flights % WRAP;
    }
  }

  /** Types outside the array (10, 11 and 12 in practice) are not counted. */
  function UpAt(counts: seq<Word>, msgType: int): seq<Word> {
    if 0 <= msgType < |counts| then counts[msgType := Up(counts[msgType])] else counts
  }
}
