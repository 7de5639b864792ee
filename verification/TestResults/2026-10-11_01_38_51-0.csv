TestResult.DisplayName,TestResult.Outcome,TestResult.Duration,TestResult.ResourceCount,RandomSeed
Sniff.ContentSpec (well-formedness),Passed,00:00:00.3926624,622459,0
Sniff.ContentSpecEarlierAttemptsFailed (well-formedness),Passed,00:00:00.2658368,153672,0
Sniff.ContentSpecEarlierAttemptsFailed (correctness),Passed,00:00:00.1540840,307649,0
