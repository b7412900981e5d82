/** The take-once challenge store. */
module Challenges {
  import opened Models

  type ChallengeMap = map<string, Challenge>

  function PutChallenge(challenges: ChallengeMap, challenge: Challenge): (ChallengeMap, Result<()>) {
    if challenge.id in challenges then (challenges, Err(ErrConflict))
    else (challenges[challenge.id := challenge], Ok(()))
  }

  /** Taking removes the challenge whether or not it has expired. */
  function TakeChallenge(challenges: ChallengeMap, id: string, now: Time): (ChallengeMap, Result<Challenge>) {
    if id !in challenges then (challenges, Err(ErrNotFound))
    else
      (challenges - {id}, if challenges[id].expiresAt <= now then Err(ErrExpired) else Ok(challenges[id]))
  }

  class MemoryChallengeStore {
    var challenges: ChallengeMap

    constructor ()
      ensures challenges == map[]
    {
      challenges := map[];
    }

    method Put(challenge: Challenge) returns (r: Result<()>)
      modifies this
      ensures (challenges, r) == PutChallenge(old(challenges), challenge)
    {
      if challenge.id in challenges {
        return Err(ErrConflict);
      }
      challenges := challenges[challenge.id := challenge];
      return Ok(());
    }

    method Take(id: string, now: Time) returns (r: Result<Challenge>)
      modifies this
      ensures (challenges, r) == TakeChallenge(old(challenges), id, now)
    {
      if id !in challenges {
        return Err(ErrNotFound);
      }
      var challenge := challenges[id];
      challenges := challenges - {id};
      if challenge.expiresAt <= now {
        return Err(ErrExpired);
      }
      return Ok(challenge);
    }
  }
}
